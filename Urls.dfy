/** File URLs and the extension helpers of the drop zone: the drop filter's
    whitelist, `isWAVFile` and `outputM4AURL`.

    A URL is kept as Foundation splits it: the path without its extension
    (`deletingPathExtension().path`) and the extension, if there is one
    (`pathExtension`, which is "" when there is none). The model does not
    re-derive that split from a path string. */
module Urls {
  import opened Base

  datatype FileURL = FileURL(stem: string, ext: Option<string>)

  /** `url.path` */
  function Path(u: FileURL): string
  {
    match u.ext
    case None => u.stem
    case Some(e) => u.stem + "." + e
  }

  /** `url.pathExtension` */
  function PathExtension(u: FileURL): string
  {
    u.ext.GetOr("")
  }

  /** `url.deletingPathExtension()` */
  function DeletingPathExtension(u: FileURL): FileURL
  {
    FileURL(u.stem, None)
  }

  /** `url.appendingPathExtension("temp.wav")`: the whole old path becomes the
      stem, so the new path is the old one followed by ".temp.wav" and the
      new extension is "wav". */
  function TempWAVURL(u: FileURL): (r: FileURL)
    ensures Path(r) == Path(u) + ".temp.wav"
    ensures PathExtension(r) == "wav"
    ensures Path(r) != Path(u)
  {
    var r := FileURL(Path(u) + ".temp", Some("wav"));
    assert Path(r) == Path(u) + ".temp.wav";
    assert |Path(r)| > |Path(u)|;
    r
  }

  /** The extensions a drop is filtered to. */
  const DropExtensions: seq<string> := ["wav", "wave", "mp3", "flac", "m4a", "aac"]

  predicate DropAccepts(u: FileURL)
    ensures PathExtension(u) == "" ==> !DropAccepts(u)
  {
    Lower(PathExtension(u)) in DropExtensions
  }

  /** `urls.filter { ... }` in `handleDrop`. */
  function FilterDropped(urls: seq<FileURL>): (r: seq<FileURL>)
    ensures |r| <= |urls|
    ensures forall u :: u in r <==> u in urls && DropAccepts(u)
  {
    if urls == [] then []
    else (if DropAccepts(urls[0]) then [urls[0]] else []) + FilterDropped(urls[1..])
  }

  /** Filtering a drop made of two parts filters each part and keeps them in
      order, so accepted URLs keep their relative order. */
  lemma {:induction false} FilterDroppedConcat(a: seq<FileURL>, b: seq<FileURL>)
    ensures FilterDropped(a + b) == FilterDropped(a) + FilterDropped(b)
  {
    if a == [] {
      assert a + b == b;
    } else {
      assert (a + b)[0] == a[0];
      assert (a + b)[1..] == a[1..] + b;
      FilterDroppedConcat(a[1..], b);
    }
  }

  /** URLs that were all accepted pass through the filter unchanged; in
      particular filtering twice is filtering once. */
  lemma {:induction false} FilterDroppedKeepsAccepted(urls: seq<FileURL>)
    requires forall i :: 0 <= i < |urls| ==> DropAccepts(urls[i])
    ensures FilterDropped(urls) == urls
  {
    if urls != [] {
      FilterDroppedKeepsAccepted(urls[1..]);
    }
  }

  lemma FilterDroppedIdempotent(urls: seq<FileURL>)
    ensures FilterDropped(FilterDropped(urls)) == FilterDropped(urls)
  {
    var r := FilterDropped(urls);
    assert forall i :: 0 <= i < |r| ==> r[i] in r;
    FilterDroppedKeepsAccepted(r);
  }

  /** `isWAVFile` */
  predicate IsWAVFile(u: FileURL)
    ensures IsWAVFile(u) ==> DropAccepts(u)
  {
    var e := Lower(PathExtension(u));
    e == "wav" || e == "wave"
  }

  /** Upper-case WAV extensions are recognised too, and a URL without an
      extension is never a WAV file. */
  lemma IsWAVFileCaseInsensitive(stem: string)
    ensures IsWAVFile(FileURL(stem, Some("WAV")))
    ensures IsWAVFile(FileURL(stem, Some("Wave")))
    ensures !IsWAVFile(FileURL(stem, None))
  {
    assert Lower("WAV") == "wav";
    assert Lower("Wave") == "wave";
  }

  /** Whether a URL is a WAV file depends only on its lowercased extension. */
  lemma IsWAVFileIgnoresCase(u: FileURL, v: FileURL)
    requires Lower(PathExtension(u)) == Lower(PathExtension(v))
    ensures IsWAVFile(u) <==> IsWAVFile(v)
  {
  }

  /** `outputM4AURL`: the extension replaced by "m4a". */
  function OutputM4AURL(u: FileURL): (r: FileURL)
    ensures PathExtension(r) == "m4a"
    ensures DeletingPathExtension(r) == DeletingPathExtension(u)
  {
    FileURL(DeletingPathExtension(u).stem, Some("m4a"))
  }

  /** Replacing the extension twice is replacing it once, and the result is the
      input itself exactly when the input's extension is already "m4a": that
      input would be overwritten by its own output. */
  lemma OutputM4AURLFixedPoints(u: FileURL)
    ensures OutputM4AURL(OutputM4AURL(u)) == OutputM4AURL(u)
    ensures OutputM4AURL(u) == u <==> u.ext == Some("m4a")
    ensures Path(OutputM4AURL(u)) == Path(u) <==> u.ext == Some("m4a")
  {
    var o := Path(OutputM4AURL(u));
    match u.ext
    case None =>
      assert |o| == |Path(u)| + 4;
    case Some(e) =>
      assert o[|u.stem| + 1..] == "m4a";
      assert Path(u)[|u.stem| + 1..] == e;
  }
}
