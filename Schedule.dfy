/** The sliding window of `startConversion` as a trace of events over the
    snapshot of pending items, numbered 0 to n - 1 in snapshot order.

    `Dispatch(k)` is `group.addTask` for snapshot item k, `Complete(k)` is one
    turn of `for await _ in group` that observed item k's task finishing.
    `LegalStep` allows exactly the steps the two loops of the source can
    take, up to which running task finishes first: the initial loop admits
    while fewer than `limit` tasks run and items remain; a completion is
    observed only once the window is full or the snapshot exhausted, and is
    followed at once by the next admission when items remain. */
module Schedule {

  datatype Event = Dispatch(index: nat) | Complete(index: nat)

  /** `itemIndex`: the number of admissions so far. */
  function Dispatched(t: seq<Event>): (r: nat)
    ensures r <= |t|
  {
    if t == [] then 0 else Dispatched(t[..|t| - 1]) + (if t[|t| - 1].Dispatch? then 1 else 0)
  }

  /** The number of completions observed so far. */
  function Completed(t: seq<Event>): (r: nat)
    ensures r <= |t|
  {
    if t == [] then 0 else Completed(t[..|t| - 1]) + (if t[|t| - 1].Complete? then 1 else 0)
  }

  /** `activeCount` after the events of `t`. */
  function Active(t: seq<Event>): int
  {
    Dispatched(t) - Completed(t)
  }

  lemma CountsAppend(t: seq<Event>, e: Event)
    ensures Dispatched(t + [e]) == Dispatched(t) + (if e.Dispatch? then 1 else 0)
    ensures Completed(t + [e]) == Completed(t) + (if e.Complete? then 1 else 0)
  {
    assert (t + [e])[..|t|] == t;
  }

  /** Event `e` may follow the events `p` in a batch of `n` items with at most
      `limit` running at a time. */
  predicate LegalStep(p: seq<Event>, e: Event, n: nat, limit: nat)
    ensures LegalStep(p, e, n, limit) && e.Dispatch? ==> e.index < n
  {
    match e
    case Dispatch(k) => k == Dispatched(p) && k < n && Active(p) < limit
    case Complete(k) =>
      Dispatch(k) in p && Complete(k) !in p && (Dispatched(p) == n || Active(p) == limit)
  }

  /** Every event of `t` may follow the events before it. */
  predicate Legal(t: seq<Event>, n: nat, limit: nat)
    ensures Legal(t, n, limit) ==> forall i :: 0 <= i < |t| ==> t[i].index < n
  {
    t == [] || (Legal(t[..|t| - 1], n, limit) && LegalStep(t[..|t| - 1], t[|t| - 1], n, limit))
  }

  /** The task group is empty and every snapshot item was admitted. */
  predicate Done(t: seq<Event>, n: nat)
  {
    Dispatched(t) == n && Active(t) == 0
  }

  /** A legal trace extended by a legal step is legal. */
  lemma LegalAppend(t: seq<Event>, e: Event, n: nat, limit: nat)
    requires Legal(t, n, limit) && LegalStep(t, e, n, limit)
    ensures Legal(t + [e], n, limit)
  {
    assert (t + [e])[..|t|] == t;
  }

  lemma {:induction false} LegalPrefix(t: seq<Event>, m: nat, n: nat, limit: nat)
    requires Legal(t, n, limit) && m <= |t|
    ensures Legal(t[..m], n, limit)
    decreases |t|
  {
    if m < |t| {
      var p := t[..|t| - 1];
      assert p[..m] == t[..m];
      LegalPrefix(p, m, n, limit);
    } else {
      assert t[..m] == t;
    }
  }

  /** In a legal trace each event may follow the events before it. */
  lemma LegalAt(t: seq<Event>, i: nat, n: nat, limit: nat)
    requires Legal(t, n, limit) && i < |t|
    ensures LegalStep(t[..i], t[i], n, limit)
  {
    LegalPrefix(t, i + 1, n, limit);
    assert t[..i + 1][..i] == t[..i];
  }

  /** After any legal prefix the counters are within bounds: no more
      admissions than items, no more completions than admissions, and
      `activeCount` in [0, limit]. */
  lemma {:induction false} LegalCounts(t: seq<Event>, n: nat, limit: nat)
    requires Legal(t, n, limit)
    ensures Completed(t) <= Dispatched(t) <= n
    ensures 0 <= Active(t) <= limit
    decreases |t|
  {
    if t != [] {
      var p := t[..|t| - 1];
      var e := t[|t| - 1];
      assert t == p + [e];
      LegalPrefix(t, |t| - 1, n, limit);
      LegalCounts(p, n, limit);
      CountsAppend(p, e);
      if e.Complete? {
        CompletedBelowDispatched(p, e.index, n, limit);
      }
    }
  }

  /** While some admitted item has not been observed to complete, fewer
      completions than admissions have been observed. */
  lemma CompletedBelowDispatched(t: seq<Event>, k: nat, n: nat, limit: nat)
    requires Legal(t, n, limit)
    requires Dispatch(k) in t && Complete(k) !in t
    ensures Completed(t) < Dispatched(t)
  {
    var d := Dispatched(t);
    CompleteSetSize(t, n, limit);
    CompleteSetBelow(t, n, limit);
    RangeSize(d);
    DispatchedBelow(t, k, n, limit);
    assert k in Range(d) && k !in CompleteSet(t);
    SubsetSize(CompleteSet(t), Range(d) - {k});
  }

  lemma {:induction false} SubsetSize(a: set<nat>, b: set<nat>)
    requires a <= b
    ensures |a| <= |b|
    decreases |a|
  {
    if a != {} {
      var x :| x in a;
      SubsetSize(a - {x}, b - {x});
    }
  }

  /** The indices whose completion has been observed. */
  function CompleteSet(t: seq<Event>): (r: set<nat>)
    ensures forall k: nat :: k in r <==> Complete(k) in t
  {
    if t == [] then {}
    else
      var p := t[..|t| - 1];
      assert t == p + [t[|t| - 1]];
      CompleteSet(p) + (if t[|t| - 1].Complete? then {t[|t| - 1].index} else {})
  }

  function Range(n: nat): (r: set<nat>)
    ensures forall k: nat :: k in r <==> k < n
  {
    if n == 0 then {} else Range(n - 1) + {n - 1}
  }

  lemma {:induction false} RangeSize(n: nat)
    ensures |Range(n)| == n
  {
    if n > 0 {
      RangeSize(n - 1);
      assert n - 1 !in Range(n - 1);
    }
  }

  /** Each observed completion is of an item not completed before, so they
      are as many as their indices. */
  lemma {:induction false} CompleteSetSize(t: seq<Event>, n: nat, limit: nat)
    requires Legal(t, n, limit)
    ensures |CompleteSet(t)| == Completed(t)
    decreases |t|
  {
    if t != [] {
      var p := t[..|t| - 1];
      LegalPrefix(t, |t| - 1, n, limit);
      CompleteSetSize(p, n, limit);
    }
  }

  /** Admissions are numbered consecutively: the item admitted by an event is
      the number of admissions before it. */
  lemma {:induction false} DispatchedBelow(t: seq<Event>, k: nat, n: nat, limit: nat)
    requires Legal(t, n, limit)
    ensures Dispatch(k) in t <==> k < Dispatched(t)
    decreases |t|
  {
    if t != [] {
      var p := t[..|t| - 1];
      var e := t[|t| - 1];
      assert t == p + [e];
      LegalPrefix(t, |t| - 1, n, limit);
      DispatchedBelow(p, k, n, limit);
      CountsAppend(p, e);
    }
  }

  /** Every completion observed is of an admitted item. */
  lemma CompleteSetBelow(t: seq<Event>, n: nat, limit: nat)
    requires Legal(t, n, limit)
    ensures CompleteSet(t) <= Range(Dispatched(t))
  {
    forall k | k in CompleteSet(t) ensures k < Dispatched(t) {
      var i :| 0 <= i < |t| && t[i] == Complete(k);
      LegalAt(t, i, n, limit);
      assert Dispatch(k) in t[..i];
      DispatchedBelow(t, k, n, limit);
    }
  }

  /** `activeCount` stays within [0, limit] at every point of the batch, so
      admissions are never more than `limit` ahead of completions. */
  lemma WindowBound(t: seq<Event>, n: nat, limit: nat, m: nat)
    requires Legal(t, n, limit) && m <= |t|
    ensures 0 <= Active(t[..m]) <= limit
    ensures Completed(t[..m]) <= Dispatched(t[..m]) <= Completed(t[..m]) + limit
  {
    LegalPrefix(t, m, n, limit);
    LegalCounts(t[..m], n, limit);
  }

  /** Admissions happen in snapshot order, so no item is admitted twice. */
  lemma DispatchInOrder(t: seq<Event>, n: nat, limit: nat, i: nat, j: nat)
    requires Legal(t, n, limit)
    requires i < j < |t| && t[i].Dispatch? && t[j].Dispatch?
    ensures t[i].index < t[j].index
  {
    LegalAt(t, i, n, limit);
    LegalAt(t, j, n, limit);
    assert t[..j][..i + 1] == t[..i + 1];
    assert t[..i + 1] == t[..i] + [t[i]];
    CountsAppend(t[..i], t[i]);
    DispatchedPrefixGrows(t[..j], i + 1);
  }

  lemma {:induction false} DispatchedPrefixGrows(t: seq<Event>, m: nat)
    requires m <= |t|
    ensures Dispatched(t[..m]) <= Dispatched(t)
    decreases |t|
  {
    if m < |t| {
      var p := t[..|t| - 1];
      assert p[..m] == t[..m];
      DispatchedPrefixGrows(p, m);
    } else {
      assert t[..m] == t;
    }
  }

  /** No item is observed to complete twice. */
  lemma CompleteOnce(t: seq<Event>, n: nat, limit: nat, i: nat, j: nat)
    requires Legal(t, n, limit)
    requires i < j < |t| && t[i].Complete? && t[j].Complete?
    ensures t[i].index != t[j].index
  {
    LegalAt(t, j, n, limit);
    assert t[..j][i] == t[i];
  }

  /** When the batch is over, every snapshot item was admitted and observed
      to complete; together with the two lemmas above, exactly once each. */
  lemma DoneCoversSnapshot(t: seq<Event>, n: nat, limit: nat)
    requires Legal(t, n, limit) && Done(t, n)
    ensures Completed(t) == n
    ensures forall k: nat :: k < n ==> Dispatch(k) in t && Complete(k) in t
  {
    forall k: nat | k < n ensures Dispatch(k) in t && Complete(k) in t {
      DispatchedBelow(t, k, n, limit);
      DoneCompletes(t, n, limit, k);
    }
  }

  lemma DoneCompletes(t: seq<Event>, n: nat, limit: nat, k: nat)
    requires Legal(t, n, limit) && Done(t, n) && k < n
    ensures Complete(k) in t
  {
    var c := CompleteSet(t);
    var r := Range(n);
    CompleteSetSize(t, n, limit);
    CompleteSetBelow(t, n, limit);
    RangeSize(n);
    assert |c| == n;
    if k !in c {
      assert c <= r - {k};
      SubsetSize(c, r - {k});
    }
  }

  // ------------------------------------------------- the loops' counters

  /** The counters of the two loops agree with the trace: `itemIndex`
      admissions, `activeCount` of them running, `running` holding exactly
      the admitted items not yet observed to complete. */
  ghost predicate Counters(t: seq<Event>, n: nat, limit: nat, itemIndex: nat, activeCount: nat, running: set<nat>)
  {
    activeCount <= limit && activeCount == |running| && itemIndex <= n
    && itemIndex == Dispatched(t) && activeCount == Active(t)
    && (forall k: nat :: Dispatch(k) in t <==> k < itemIndex)
    && (forall k: nat :: Complete(k) in t ==> k < itemIndex)
    && (forall k: nat :: k in running <==> Dispatch(k) in t && Complete(k) !in t)
  }

  /** The invariant of both loops: the counters agree with a legal trace. */
  ghost predicate Window(t: seq<Event>, n: nat, limit: nat, itemIndex: nat, activeCount: nat, running: set<nat>)
  {
    Counters(t, n, limit, itemIndex, activeCount, running) && Legal(t, n, limit)
  }

  lemma WindowStart(n: nat, limit: nat)
    ensures Window([], n, limit, 0, 0, {})
  {
  }

  lemma CountersAdmit(t: seq<Event>, n: nat, limit: nat, itemIndex: nat, activeCount: nat, running: set<nat>)
    requires Counters(t, n, limit, itemIndex, activeCount, running)
    requires itemIndex < n && activeCount < limit
    ensures Counters(t + [Dispatch(itemIndex)], n, limit, itemIndex + 1, activeCount + 1, running + {itemIndex})
  {
    var e := Dispatch(itemIndex);
    var t' := t + [e];
    CountsAppend(t, e);
    assert itemIndex !in running;
    forall k: nat ensures Dispatch(k) in t' <==> k < itemIndex + 1 {
      assert Dispatch(k) in t' <==> Dispatch(k) in t || k == itemIndex;
    }
    forall k: nat ensures Complete(k) in t' <==> Complete(k) in t {
      assert Complete(k) in t' <==> Complete(k) in t || Complete(k) == e;
    }
  }

  /** `group.addTask` for the next item, with `activeCount += 1` and
      `itemIndex += 1`, while the window has room and items remain. */
  lemma WindowAdmit(t: seq<Event>, n: nat, limit: nat, itemIndex: nat, activeCount: nat, running: set<nat>)
    requires Window(t, n, limit, itemIndex, activeCount, running)
    requires itemIndex < n && activeCount < limit
    ensures Window(t + [Dispatch(itemIndex)], n, limit, itemIndex + 1, activeCount + 1, running + {itemIndex})
  {
    CountersAdmit(t, n, limit, itemIndex, activeCount, running);
    LegalAppend(t, Dispatch(itemIndex), n, limit);
  }

  /** One turn of `for await _ in group` observing running item `j` finish,
      with `activeCount -= 1`, once the window is full or the snapshot
      exhausted. */
  lemma WindowComplete(t: seq<Event>, n: nat, limit: nat, itemIndex: nat, activeCount: nat, running: set<nat>, j: nat)
    requires Window(t, n, limit, itemIndex, activeCount, running)
    requires j in running && (itemIndex == n || activeCount == limit)
    ensures activeCount > 0
    ensures Window(t + [Complete(j)], n, limit, itemIndex, activeCount - 1, running - {j})
  {
    CountersComplete(t, n, limit, itemIndex, activeCount, running, j);
    LegalAppend(t, Complete(j), n, limit);
  }

  lemma CountersComplete(t: seq<Event>, n: nat, limit: nat, itemIndex: nat, activeCount: nat, running: set<nat>, j: nat)
    requires Counters(t, n, limit, itemIndex, activeCount, running) && j in running
    ensures activeCount > 0
    ensures Counters(t + [Complete(j)], n, limit, itemIndex, activeCount - 1, running - {j})
  {
    var e := Complete(j);
    var t' := t + [e];
    CountsAppend(t, e);
    forall k: nat ensures Dispatch(k) in t' <==> Dispatch(k) in t {
      assert Dispatch(k) in t' <==> Dispatch(k) in t || Dispatch(k) == e;
    }
    forall k: nat ensures Complete(k) in t' <==> Complete(k) in t || k == j {
      assert Complete(k) in t' <==> Complete(k) in t || Complete(k) == e;
    }
  }

  /** When the group is empty after the initial batch, every item was
      admitted: the loops end with `itemIndex` equal to the snapshot size and
      `activeCount` 0, and the trace is complete. */
  lemma WindowDone(t: seq<Event>, n: nat, limit: nat, itemIndex: nat, running: set<nat>)
    requires limit >= 1 && Window(t, n, limit, itemIndex, 0, running)
    requires itemIndex == n || 0 == limit
    ensures itemIndex == n && running == {} && Done(t, n)
  {
  }
}
