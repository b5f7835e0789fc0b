/** `AudioConverter`: the queue of items, the `isConverting` flag, the queue
    edits, the batch scheduler of `startConversion` and `cancelConversion`.

    The batch runs to its end inside `StartConversion`: the task group's
    concurrency is modelled by a sequential loop in which "some running task
    finished" is a nondeterministic choice among the running ones, so the
    bound on running tasks and the exactly-once, in-order admission are loop
    invariants, and the trace of admissions and completions it returns is a
    legal one in the sense of module Schedule. */
module Queue {
  import opened Base
  import opened Urls
  import opened Models
  import opened Invocation
  import opened Pipeline
  import opened Schedule

  predicate Distinct<T(==)>(s: seq<T>)
  {
    forall i, j :: 0 <= i < j < |s| ==> s[i] != s[j]
  }

  // ----------------------------------------------------- remove(atOffsets:)

  /** `remove(atOffsets:)`: the elements at positions outside `offsets`,
      in their order. */
  function RemoveAt<T>(s: seq<T>, offsets: set<nat>): (r: seq<T>)
    ensures |r| <= |s|
  {
    if s == [] then []
    else RemoveAt(s[..|s| - 1], offsets) + (if |s| - 1 in offsets then [] else [s[|s| - 1]])
  }

  /** The result holds exactly the elements found at a kept position. */
  lemma {:induction false} RemoveAtElements<T>(s: seq<T>, offsets: set<nat>, x: T)
    ensures x in RemoveAt(s, offsets) <==> exists i :: 0 <= i < |s| && i !in offsets && s[i] == x
  {
    if s != [] {
      var p := s[..|s| - 1];
      RemoveAtElements(p, offsets, x);
      if exists i :: 0 <= i < |s| && i !in offsets && s[i] == x {
        var i :| 0 <= i < |s| && i !in offsets && s[i] == x;
        if i < |p| {
          assert p[i] == x;
        }
      }
      if exists i :: 0 <= i < |p| && i !in offsets && p[i] == x {
        var i :| 0 <= i < |p| && i !in offsets && p[i] == x;
        assert s[i] == x;
      }
    }
  }

  /** Removal keeps order: what is left of a prefix is a prefix of what is
      left of the whole. */
  lemma {:induction false} RemoveAtPrefix<T>(s: seq<T>, offsets: set<nat>, m: nat)
    requires m <= |s|
    ensures RemoveAt(s[..m], offsets) <= RemoveAt(s, offsets)
    decreases |s|
  {
    if m < |s| {
      var p := s[..|s| - 1];
      assert p[..m] == s[..m];
      RemoveAtPrefix(p, offsets, m);
    } else {
      assert s[..m] == s;
    }
  }

  /** Only the offsets below the length matter. */
  lemma {:induction false} RemoveAtAgrees<T>(s: seq<T>, a: set<nat>, b: set<nat>)
    requires forall k: nat :: k < |s| ==> (k in a <==> k in b)
    ensures RemoveAt(s, a) == RemoveAt(s, b)
  {
    if s != [] {
      RemoveAtAgrees(s[..|s| - 1], a, b);
    }
  }

  /** Exactly as many elements as offsets are removed. */
  lemma {:induction false} RemoveAtLength<T>(s: seq<T>, offsets: set<nat>)
    requires forall k :: k in offsets ==> k < |s|
    ensures |RemoveAt(s, offsets)| == |s| - |offsets|
  {
    if s == [] {
      assert offsets == {};
    } else {
      var m := |s| - 1;
      var rest := offsets - {m};
      RemoveAtAgrees(s[..m], offsets, rest);
      RemoveAtLength(s[..m], rest);
    }
  }

  /** Removing from a sequence without repetitions leaves none. */
  lemma {:induction false} RemoveAtDistinct<T>(s: seq<T>, offsets: set<nat>)
    requires Distinct(s)
    ensures Distinct(RemoveAt(s, offsets))
  {
    if s != [] {
      var p := s[..|s| - 1];
      RemoveAtDistinct(p, offsets);
      RemoveAtElements(p, offsets, s[|s| - 1]);
    }
  }

  // ------------------------------------------------------------- snapshots

  /** `conversionItems.filter { $0.status == .pending }` */
  function PendingItems(xs: seq<ConversionItem>): (r: seq<ConversionItem>)
    reads xs
    ensures |r| <= |xs|
    ensures forall x :: x in r ==> x in xs && x.status == Pending
    ensures forall x :: x in xs && x.status == Pending ==> x in r
    ensures Distinct(xs) ==> Distinct(r)
  {
    if xs == [] then []
    else
      var p := xs[..|xs| - 1];
      assert xs == p + [xs[|xs| - 1]];
      PendingItems(p) + (if xs[|xs| - 1].status == Pending then [xs[|xs| - 1]] else [])
  }

  /** The snapshot keeps queue order: the pending items of a queue made of
      two parts are those of the first part followed by those of the second. */
  lemma {:induction false} PendingItemsConcat(a: seq<ConversionItem>, b: seq<ConversionItem>)
    ensures PendingItems(a + b) == PendingItems(a) + PendingItems(b)
    decreases |b|
  {
    if b == [] {
      assert a + b == a;
    } else {
      var p := b[..|b| - 1];
      assert (a + b)[..|a + b| - 1] == a + p;
      PendingItemsConcat(a, p);
    }
  }

  // ------------------------------------------------------------ item states

  /** What `cancelConversion` does to one item. */
  function Cancelled(s: ItemState): (r: ItemState)
    ensures r.status != Converting && r.input == s.input
  {
    if s.status == Converting then s.(status := Pending, progress := 0) else s
  }

  /** A converting item goes back to pending at 0 with nothing else changed;
      an item in any other state is left alone; afterwards nothing is
      converting, and cancelling twice is cancelling once. */
  lemma CancelledResets(s: ItemState)
    ensures var r := Cancelled(s);
      (s.status == Converting ==>
        r.status == Pending && r.progress == 0 && r.input == s.input
        && r.outputURL == s.outputURL && r.errorMessage == s.errorMessage)
      && (s.status != Converting ==> r == s)
      && r.status != Converting
      && Cancelled(r) == r
  {
  }

  lemma CancelledConsistent(s: ItemState)
    requires Consistent(s)
    ensures Consistent(Cancelled(s))
  {
  }

  /** What a batch does to one item: a pending item is started and finished,
      any other item is left alone. */
  function AfterBatch(s: ItemState, cfg: Config, env: Env): ItemState
  {
    if s.status == Pending then Finished(Begun(s), Conversion(s.input, cfg, env)) else s
  }

  /** After a batch no item that was pending is left pending or converting,
      a result or a message is recorded according to how it ended, and
      consistent items stay consistent. */
  lemma AfterBatchTerminal(s: ItemState, cfg: Config, env: Env)
    requires Consistent(s) && s.status != Converting
    ensures var r := AfterBatch(s, cfg, env);
      Consistent(r) && r.input == s.input
      && (s.status == Pending ==>
        (r.status == Completed <==> Conversion(s.input, cfg, env).terminal.Succeeded?)
        && (r.status == Completed || r.status == Failed))
      && (s.status != Pending ==> r == s)
  {
    if s.status == Pending {
      ConvertedStaysConsistent(s, cfg, env);
    }
  }

  /** Where snapshot item `k`, which started the batch in state `s` and
      ends it in state `f`, is after `itemIndex` admissions with the admitted
      items in `running` still running. */
  ghost function Phase(s: ItemState, f: ItemState, k: nat, itemIndex: nat, running: set<nat>): ItemState
  {
    if k >= itemIndex then s
    else if k in running then Begun(s)
    else f
  }

  // ------------------------------------------------------------- the class

  class AudioConverter {
    var conversionItems: seq<ConversionItem>
    var isConverting: bool

    /** Items are distinct objects, each consistent, and none is converting
        outside a batch. */
    ghost predicate Valid()
      reads this, conversionItems
    {
      Distinct(conversionItems)
      && (forall x :: x in conversionItems ==> Consistent(x.State()))
      && (!isConverting ==> forall x :: x in conversionItems ==> x.status != Converting)
    }

    constructor ()
      ensures Valid() && conversionItems == [] && !isConverting
    {
      conversionItems := [];
      isConverting := false;
    }

    /** `addFiles`: one new pending item per URL, appended in URL order. */
    method AddFiles(urls: seq<FileURL>)
      requires Valid()
      modifies this
      ensures Valid() && isConverting == old(isConverting)
      ensures |conversionItems| == |old(conversionItems)| + |urls|
      ensures conversionItems[..|old(conversionItems)|] == old(conversionItems)
      ensures forall k :: 0 <= k < |urls| ==>
        var x := conversionItems[|old(conversionItems)| + k];
        fresh(x) && x.State() == InitialState(urls[k])
    {
      var newItems: seq<ConversionItem> := [];
      for k := 0 to |urls|
        invariant conversionItems == old(conversionItems) && isConverting == old(isConverting)
        invariant |newItems| == k && Distinct(newItems)
        invariant forall j :: 0 <= j < k ==> fresh(newItems[j]) && newItems[j].State() == InitialState(urls[j])
      {
        var item := new ConversionItem(urls[k]);
        newItems := newItems + [item];
      }
      conversionItems := conversionItems + newItems;
      assert conversionItems[..|old(conversionItems)|] == old(conversionItems);
    }

    /** `removeItems`: the items at the given offsets are removed, whatever
        the state of the batch. */
    method RemoveItems(offsets: set<nat>)
      requires Valid()
      requires forall k :: k in offsets ==> k < |conversionItems|
      modifies this
      ensures Valid() && isConverting == old(isConverting)
      ensures conversionItems == RemoveAt(old(conversionItems), offsets)
    {
      RemoveAtDistinct(conversionItems, offsets);
      forall x | x in RemoveAt(conversionItems, offsets) ensures x in conversionItems {
        RemoveAtElements(conversionItems, offsets, x);
      }
      conversionItems := RemoveAt(conversionItems, offsets);
    }

    /** `clearAll`: empties the queue, unless a batch is running. */
    method ClearAll()
      requires Valid()
      modifies this
      ensures Valid() && isConverting == old(isConverting)
      ensures conversionItems == if old(isConverting) then old(conversionItems) else []
    {
      if !isConverting {
        conversionItems := [];
      }
    }

    /** `cancelConversion`: the flag is cleared and every converting item is
        reset to pending at progress 0. */
    method CancelConversion()
      requires Valid()
      modifies this, conversionItems
      ensures Valid() && !isConverting && conversionItems == old(conversionItems)
      ensures forall i :: 0 <= i < |conversionItems| ==>
        conversionItems[i].State() == Cancelled(old(conversionItems[i].State()))
    {
      isConverting := false;
      for i := 0 to |conversionItems|
        invariant conversionItems == old(conversionItems) && !isConverting
        invariant forall k :: 0 <= k < i ==>
          conversionItems[k].State() == Cancelled(old(conversionItems[k].State()))
        invariant forall k :: i <= k < |conversionItems| ==>
          conversionItems[k].State() == old(conversionItems[k].State())
      {
        var item := conversionItems[i];
        if item.status == Converting {
          item.status := Pending;
          item.progress := 0;
        }
      }
      forall x | x in conversionItems ensures Consistent(x.State()) && x.status != Converting {
        var i :| 0 <= i < |conversionItems| && conversionItems[i] == x;
        CancelledConsistent(old(x.State()));
        CancelledResets(old(x.State()));
      }
    }

    /** `startConversion`: unless a batch runs or the queue is empty, the
        items pending now are admitted in order, at most
        `ConcurrencyLimit(cfg)` at a time, a new one each time a running one
        finishes; every one of them is started and finished, every other item
        is left alone, and the flag is cleared at the end. `envOf` gives the
        outside world as each item finds it. */
    method StartConversion(cfg: Config, envOf: ConversionItem -> Env) returns (ghost trace: seq<Event>, ghost snapshot: seq<ConversionItem>)
      requires Valid()
      modifies this, conversionItems
      ensures Valid() && conversionItems == old(conversionItems)
      ensures old(isConverting) || old(|conversionItems|) == 0 ==>
        isConverting == old(isConverting) && trace == [] &&
        forall i :: 0 <= i < |conversionItems| ==> conversionItems[i].State() == old(conversionItems[i].State())
      ensures !old(isConverting) && old(|conversionItems|) > 0 ==>
        !isConverting && snapshot == old(PendingItems(conversionItems)) &&
        forall i :: 0 <= i < |conversionItems| ==>
          conversionItems[i].State() == AfterBatch(old(conversionItems[i].State()), cfg, envOf(conversionItems[i]))
      ensures Legal(trace, |snapshot|, ConcurrencyLimit(cfg)) && Done(trace, |snapshot|)
    {
      trace, snapshot := [], [];
      if isConverting || |conversionItems| == 0 {
        return;
      }
      isConverting := true;
      trace, snapshot := RunBatch(conversionItems, cfg, envOf);
      isConverting := false;
      forall x | x in conversionItems ensures Consistent(x.State()) && x.status != Converting {
        var i :| 0 <= i < |conversionItems| && conversionItems[i] == x;
        AfterBatchTerminal(old(x.State()), cfg, envOf(x));
      }
    }
  }

  /** The batch itself: the pending items are snapshotted, admitted and
      finished. */
  method RunBatch(items: seq<ConversionItem>, cfg: Config, envOf: ConversionItem -> Env)
    returns (ghost trace: seq<Event>, ghost snapshot: seq<ConversionItem>)
    requires Distinct(items)
    modifies items
    ensures snapshot == old(PendingItems(items))
    ensures forall i :: 0 <= i < |items| ==> items[i].State() == AfterBatch(old(items[i].State()), cfg, envOf(items[i]))
    ensures Legal(trace, |snapshot|, ConcurrencyLimit(cfg)) && Done(trace, |snapshot|)
  {
    ghost var all0 := StatesOf(items);
    var limit := ConcurrencyLimit(cfg);
    var pending := PendingItems(items);
    snapshot := pending;
    ghost var s0 := StatesOf(pending);
    TargetsExist(pending, s0, cfg, envOf);
    ghost var fin :| Targets(pending, s0, fin, cfg, envOf);
    assert forall i :: 0 <= i < |items| ==> (items[i] in pending <==> all0[i].status == Pending);
    assert forall k, i :: 0 <= k < |pending| && 0 <= i < |items| && pending[k] == items[i] ==> s0[k] == all0[i];
    var itemIndex, activeCount, running;
    itemIndex, activeCount, running, trace := StartInitialBatch(pending, s0, fin, limit);
    trace := AwaitGroup(pending, s0, fin, limit, cfg, envOf, itemIndex, activeCount, running, trace);
    BatchOutcome(items, all0, pending, s0, fin, cfg, envOf);
  }

  /** The states of the snapshot items, position by position, given their
      states `s0` at the start of the batch and `fin` at its end. */
  ghost predicate InPhase(pending: seq<ConversionItem>, s0: seq<ItemState>, fin: seq<ItemState>,
                          itemIndex: nat, running: set<nat>)
    reads pending
  {
    |s0| == |pending| && |fin| == |pending| &&
    forall k :: 0 <= k < |pending| ==> pending[k].State() == Phase(s0[k], fin[k], k, itemIndex, running)
  }

  /** The state snapshot item `k` ends the batch in: started, then
      converted in the outside world `envOf` gives it. */
  ghost predicate TargetAt(pending: seq<ConversionItem>, s0: seq<ItemState>, fin: seq<ItemState>,
                           cfg: Config, envOf: ConversionItem -> Env, k: nat)
  {
    k < |pending| && |s0| == |pending| && |fin| == |pending| &&
    fin[k] == Finished(Begun(s0[k]), Conversion(s0[k].input, cfg, envOf(pending[k])))
  }

  ghost predicate Targets(pending: seq<ConversionItem>, s0: seq<ItemState>, fin: seq<ItemState>,
                          cfg: Config, envOf: ConversionItem -> Env)
  {
    |s0| == |pending| && |fin| == |pending| &&
    forall k: nat :: k < |pending| ==> TargetAt(pending, s0, fin, cfg, envOf, k)
  }

  lemma TargetsExist(pending: seq<ConversionItem>, s0: seq<ItemState>, cfg: Config, envOf: ConversionItem -> Env)
    requires |s0| == |pending|
    ensures exists fin :: Targets(pending, s0, fin, cfg, envOf)
  {
    var fin := seq(|pending|, k requires 0 <= k < |pending| =>
      Finished(Begun(s0[k]), Conversion(s0[k].input, cfg, envOf(pending[k]))));
    assert Targets(pending, s0, fin, cfg, envOf);
  }

  /** "Start initial batch": admit snapshot items in order while fewer than
      `limit` run and items remain. */
  method StartInitialBatch(pending: seq<ConversionItem>, ghost s0: seq<ItemState>, ghost fin: seq<ItemState>, limit: nat)
    returns (itemIndex: nat, activeCount: nat, running: set<nat>, ghost trace: seq<Event>)
    requires Distinct(pending) && InPhase(pending, s0, fin, 0, {})
    modifies pending
    ensures Window(trace, |pending|, limit, itemIndex, activeCount, running)
    ensures itemIndex == |pending| || activeCount == limit
    ensures InPhase(pending, s0, fin, itemIndex, running)
  {
    itemIndex, activeCount, running, trace := 0, 0, {}, [];
    WindowStart(|pending|, limit);
    while activeCount < limit && itemIndex < |pending|
      invariant Window(trace, |pending|, limit, itemIndex, activeCount, running)
      invariant InPhase(pending, s0, fin, itemIndex, running)
      decreases |pending| - itemIndex
    {
      itemIndex, activeCount, running, trace :=
        AdmitNext(pending, s0, fin, limit, itemIndex, activeCount, running, trace);
    }
  }

  /** "As tasks complete, start new ones": each turn observes some running
      item finishing and admits the next item, if any, until the group is
      empty. */
  method AwaitGroup(pending: seq<ConversionItem>, ghost s0: seq<ItemState>, ghost fin: seq<ItemState>, limit: nat,
                    cfg: Config, envOf: ConversionItem -> Env,
                    itemIndex0: nat, activeCount0: nat, running0: set<nat>, ghost trace0: seq<Event>)
    returns (ghost trace: seq<Event>)
    requires limit >= 1 && Distinct(pending) && Targets(pending, s0, fin, cfg, envOf)
    requires Window(trace0, |pending|, limit, itemIndex0, activeCount0, running0)
    requires itemIndex0 == |pending| || activeCount0 == limit
    requires InPhase(pending, s0, fin, itemIndex0, running0)
    modifies pending
    ensures Legal(trace, |pending|, limit) && Done(trace, |pending|)
    ensures InPhase(pending, s0, fin, |pending|, {})
  {
    var itemIndex, activeCount, running := itemIndex0, activeCount0, running0;
    trace := trace0;
    while activeCount > 0
      invariant Window(trace, |pending|, limit, itemIndex, activeCount, running)
      invariant itemIndex == |pending| || activeCount == limit
      invariant InPhase(pending, s0, fin, itemIndex, running)
      decreases |pending| - itemIndex, activeCount
    {
      var j :| j in running;
      WindowComplete(trace, |pending|, limit, itemIndex, activeCount, running, j);
      assert TargetAt(pending, s0, fin, cfg, envOf, j);
      CompleteOne(pending, s0, fin, cfg, envOf, itemIndex, running, j);
      activeCount, running, trace := activeCount - 1, running - {j}, trace + [Complete(j)];
      if itemIndex < |pending| {
        itemIndex, activeCount, running, trace :=
          AdmitNext(pending, s0, fin, limit, itemIndex, activeCount, running, trace);
      }
    }
    WindowDone(trace, |pending|, limit, itemIndex, running);
  }

  /** `group.addTask { await self.convertItem(item) }` for the next snapshot
      item, up to the first suspension point of `convertItem`, with
      `activeCount += 1` and `itemIndex += 1`. */
  method AdmitNext(pending: seq<ConversionItem>, ghost s0: seq<ItemState>, ghost fin: seq<ItemState>, limit: nat,
                   itemIndex: nat, activeCount: nat, running: set<nat>, ghost trace: seq<Event>)
    returns (itemIndex': nat, activeCount': nat, running': set<nat>, ghost trace': seq<Event>)
    requires Distinct(pending) && itemIndex < |pending| && activeCount < limit
    requires Window(trace, |pending|, limit, itemIndex, activeCount, running)
    requires InPhase(pending, s0, fin, itemIndex, running)
    modifies pending
    ensures itemIndex' == itemIndex + 1 && activeCount' == activeCount + 1
    ensures running' == running + {itemIndex} && trace' == trace + [Dispatch(itemIndex)]
    ensures Window(trace', |pending|, limit, itemIndex', activeCount', running')
    ensures InPhase(pending, s0, fin, itemIndex', running')
  {
    WindowAdmit(trace, |pending|, limit, itemIndex, activeCount, running);
    BeginConversion(pending[itemIndex]);
    itemIndex', activeCount', running', trace' :=
      itemIndex + 1, activeCount + 1, running + {itemIndex}, trace + [Dispatch(itemIndex)];
  }

  /** One turn of `for await _ in group` observing running snapshot item
      `j` finish: the rest of its `convertItem`. */
  method CompleteOne(pending: seq<ConversionItem>, ghost s0: seq<ItemState>, ghost fin: seq<ItemState>,
                     cfg: Config, envOf: ConversionItem -> Env,
                     itemIndex: nat, running: set<nat>, j: nat)
    requires Distinct(pending) && j in running && j < itemIndex <= |pending|
    requires TargetAt(pending, s0, fin, cfg, envOf, j)
    requires InPhase(pending, s0, fin, itemIndex, running)
    modifies pending[j]
    ensures InPhase(pending, s0, fin, itemIndex, running - {j})
  {
    var item := pending[j];
    assert item.State() == Begun(s0[j]);
    var _ := FinishConversion(item, cfg, envOf(item));
    assert item.State() == fin[j];
    forall k | 0 <= k < |pending|
      ensures pending[k].State() == Phase(s0[k], fin[k], k, itemIndex, running - {j})
    {
      if k != j {
        assert pending[k] != item;
        assert pending[k].State() == old(pending[k].State());
      }
    }
  }

  /** At the end of the batch every snapshot item is finished and every other
      item is as it was, so each item is as `AfterBatch` says. */
  lemma BatchOutcome(items: seq<ConversionItem>, all0: seq<ItemState>, pending: seq<ConversionItem>, s0: seq<ItemState>,
                     fin: seq<ItemState>, cfg: Config, envOf: ConversionItem -> Env)
    requires |all0| == |items| && |s0| == |pending|
    requires forall i :: 0 <= i < |items| ==> (items[i] in pending <==> all0[i].status == Pending)
    requires forall k, i :: 0 <= k < |pending| && 0 <= i < |items| && pending[k] == items[i] ==> s0[k] == all0[i]
    requires InPhase(pending, s0, fin, |pending|, {}) && Targets(pending, s0, fin, cfg, envOf)
    requires forall i :: 0 <= i < |items| && items[i] !in pending ==> items[i].State() == all0[i]
    ensures forall i :: 0 <= i < |items| ==> items[i].State() == AfterBatch(all0[i], cfg, envOf(items[i]))
  {
    forall i | 0 <= i < |items|
      ensures items[i].State() == AfterBatch(all0[i], cfg, envOf(items[i]))
    {
      if items[i] in pending {
        var k :| 0 <= k < |pending| && pending[k] == items[i];
        assert s0[k] == all0[i];
        assert TargetAt(pending, s0, fin, cfg, envOf, k);
      }
    }
  }
}
