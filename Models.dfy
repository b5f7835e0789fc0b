/** The data model: a queued conversion item, its four-state status and the
    converter's error type.

    Progress is kept in hundredths (0 stands for 0.0, 100 for 1.0). An item's
    `id` is its object identity: every item is a freshly allocated object. */
module Models {
  import opened Base
  import opened Urls

  datatype ConversionStatus = Pending | Converting | Completed | Failed

  /** `ConversionStatus.allCases` */
  const AllStatuses: seq<ConversionStatus> := [Pending, Converting, Completed, Failed]

  lemma AllStatusesEnumerates(s: ConversionStatus)
    ensures |AllStatuses| == 4 && s in AllStatuses
    ensures forall i, j :: 0 <= i < j < |AllStatuses| ==> AllStatuses[i] != AllStatuses[j]
  {
  }

  function DisplayName(s: ConversionStatus): (r: string)
    ensures r != ""
  {
    match s
    case Pending => "Pending"
    case Converting => "Converting..."
    case Completed => "Completed"
    case Failed => "Failed"
  }

  /** No two statuses share a display name. */
  lemma DisplayNameInjective(s: ConversionStatus, t: ConversionStatus)
    ensures DisplayName(s) == DisplayName(t) ==> s == t
  {
    if s != t {
      match (s, t)
      case (Pending, Converting) => assert DisplayName(s)[0] != DisplayName(t)[0];
      case (Converting, Pending) => assert DisplayName(s)[0] != DisplayName(t)[0];
      case (Pending, Completed) => assert DisplayName(s)[0] != DisplayName(t)[0];
      case (Completed, Pending) => assert DisplayName(s)[0] != DisplayName(t)[0];
      case (Pending, Failed) => assert DisplayName(s)[0] != DisplayName(t)[0];
      case (Failed, Pending) => assert DisplayName(s)[0] != DisplayName(t)[0];
      case (Converting, Completed) => assert DisplayName(s)[2] != DisplayName(t)[2];
      case (Completed, Converting) => assert DisplayName(s)[2] != DisplayName(t)[2];
      case (Converting, Failed) => assert DisplayName(s)[0] != DisplayName(t)[0];
      case (Failed, Converting) => assert DisplayName(s)[0] != DisplayName(t)[0];
      case (Completed, Failed) => assert DisplayName(s)[0] != DisplayName(t)[0];
      case (Failed, Completed) => assert DisplayName(s)[0] != DisplayName(t)[0];
    }
  }

  /** `ConversionError`: every case carries its user-facing message. */
  datatype ConversionError =
    | ExhaleNotFound(message: string)
    | InputFileNotFound(message: string)
    | ConversionFailed(message: string)
    | FFmpegNotFound(message: string)

  /** `errorDescription`: never nil, and exactly the carried message. */
  function ErrorDescription(e: ConversionError): (r: Option<string>)
    ensures r == Some(e.message)
  {
    match e
    case ExhaleNotFound(m) => Some(m)
    case InputFileNotFound(m) => Some(m)
    case ConversionFailed(m) => Some(m)
    case FFmpegNotFound(m) => Some(m)
  }

  /** The value of an item's fields at one moment. */
  datatype ItemState = ItemState(
    input: FileURL,
    outputURL: Option<FileURL>,
    status: ConversionStatus,
    progress: nat,
    errorMessage: Option<string>)

  /** What the item's fields say together: a result only on a completed item,
      a message only on a failed one, progress within [0, 1]. */
  predicate Consistent(s: ItemState)
  {
    s.progress <= 100 &&
    match s.status
    case Pending => s.outputURL.None? && s.errorMessage.None?
    case Converting => s.outputURL.None? && s.errorMessage.None?
    case Completed => s.outputURL.Some? && s.errorMessage.None?
    case Failed => s.outputURL.None? && s.errorMessage.Some?
  }

  function InitialState(input: FileURL): (s: ItemState)
    ensures s.input == input && s.status == Pending && s.progress == 0
    ensures s.outputURL == None && s.errorMessage == None
    ensures Consistent(s)
  {
    ItemState(input, None, Pending, 0, None)
  }

  class ConversionItem {
    const inputURL: FileURL
    var outputURL: Option<FileURL>
    var status: ConversionStatus
    var progress: nat
    var errorMessage: Option<string>

    /** `init(inputURL:)`: a new item is pending, at progress 0, with neither
        a result nor an error. */
    constructor (inputURL: FileURL)
      ensures State() == InitialState(inputURL)
    {
      this.inputURL := inputURL;
      outputURL := None;
      status := Pending;
      progress := 0;
      errorMessage := None;
    }

    function State(): (s: ItemState)
      reads this
      ensures s.input == inputURL && s.status == status && s.progress == progress
      ensures s.outputURL == outputURL && s.errorMessage == errorMessage
    {
      ItemState(inputURL, outputURL, status, progress, errorMessage)
    }
  }

  /** The states of a sequence of items, position by position. */
  function StatesOf(xs: seq<ConversionItem>): (r: seq<ItemState>)
    reads xs
    ensures |r| == |xs|
    ensures forall i :: 0 <= i < |xs| ==> r[i] == xs[i].State()
  {
    if xs == [] then [] else StatesOf(xs[..|xs| - 1]) + [xs[|xs| - 1].State()]
  }
}
