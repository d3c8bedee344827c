/**
 * The staff console (src/pages/Admin.tsx): the per-loket panels built from the
 * active calls at start-up, the realtime handlers that keep them current, the
 * keyboard shortcuts and the outcome of "call next".
 */
module Admin {
  import opened QueueManager

  /** What a loket panel shows: the formatted ticket and the number it came from. */
  datatype LoketState = LoketState(currentQueue: string, lastCalled: int)

  /** What "call next" reports: the announced ticket, or the error toast. */
  datatype CallOutcome = Announce(queueNumber: int, loket: int) | ShowError

  const EmptyLoket := LoketState("A000", 0)

  const InitialLokets: map<int, LoketState> := map[1 := EmptyLoket, 2 := EmptyLoket, 3 := EmptyLoket]

  predicate IsLoket(l: int) {
    1 <= l <= 3
  }

  /** The largest queue number among the calls at loket `l`, or 0 when there is none. */
  function HighestNumberAt(calls: seq<QueueCall>, l: int): (m: int)
    ensures m >= 0
    ensures forall c :: c in calls && c.loketNumber == l ==> c.queueNumber <= m
    ensures m == 0 || exists c :: c in calls && c.loketNumber == l && c.queueNumber == m
    decreases |calls|
  {
    if calls == [] then 0
    else
      var n := |calls| - 1;
      var prev := HighestNumberAt(calls[..n], l);
      assert calls == calls[..n] + [calls[n]];
      if calls[n].loketNumber == l && calls[n].queueNumber > prev then calls[n].queueNumber else prev
  }

  lemma HighestNumberStep(calls: seq<QueueCall>, i: nat, l: int)
    requires i < |calls|
    ensures HighestNumberAt(calls[..i + 1], l) ==
      if calls[i].loketNumber == l && calls[i].queueNumber > HighestNumberAt(calls[..i], l)
      then calls[i].queueNumber else HighestNumberAt(calls[..i], l)
  {
    assert calls[..i + 1][..i] == calls[..i];
  }

  /** A panel's text is the label of the number it stores. */
  predicate ShowsOwnNumber(s: LoketState) {
    s.currentQueue == FormatQueueNumber(s.lastCalled, "A")
  }

  /** One step of loadInitialState's forEach. Looking up a loket that has no entry
      throws, which ends the fold without a result. `!lastCalled` is also true of
      a stored 0, so such an entry is always replaced. */
  function FoldStep(panels: map<int, LoketState>, call: QueueCall): (r: Option<map<int, LoketState>>)
    ensures r.None? <==> call.loketNumber !in panels
    ensures r.Some? ==> r.value.Keys == panels.Keys
  {
    if call.loketNumber !in panels then None
    else
      var entry := panels[call.loketNumber];
      if entry.lastCalled == 0 || call.queueNumber > entry.lastCalled then
        Some(panels[call.loketNumber := LoketState(FormatQueueNumber(call.queueNumber, "A"), call.queueNumber)])
      else Some(panels)
  }

  /** The panels loadInitialState builds from `calls`, folded in order; when the
      fold gets through, the panels are still exactly lokets 1, 2 and 3. */
  function FoldCalls(calls: seq<QueueCall>): (r: Option<map<int, LoketState>>)
    ensures r.Some? ==> forall l :: l in r.value <==> IsLoket(l)
    decreases |calls|
  {
    if calls == [] then Some(InitialLokets)
    else
      match FoldCalls(calls[..|calls| - 1])
      case None => None
      case Some(panels) => FoldStep(panels, calls[|calls| - 1])
  }

  /** The fold throws exactly on a call at a loket outside 1..3, and otherwise keeps
      the three panels. */
  lemma {:induction false} FoldCallsFails(calls: seq<QueueCall>)
    ensures FoldCalls(calls).None? <==> exists i :: 0 <= i < |calls| && !IsLoket(calls[i].loketNumber)
    ensures FoldCalls(calls).Some? ==> forall l :: l in FoldCalls(calls).value <==> IsLoket(l)
    decreases |calls|
  {
    if calls != [] {
      var n := |calls| - 1;
      FoldCallsFails(calls[..n]);
      if exists i :: 0 <= i < n && !IsLoket(calls[..n][i].loketNumber) {
        var i :| 0 <= i < n && !IsLoket(calls[..n][i].loketNumber);
        assert calls[i] == calls[..n][i];
      }
      if exists i :: 0 <= i < |calls| && !IsLoket(calls[i].loketNumber) {
        var i :| 0 <= i < |calls| && !IsLoket(calls[i].loketNumber);
        if i < n {
          assert calls[..n][i] == calls[i];
        }
      }
    }
  }

  /** Every panel the fold yields shows the label of its own number. */
  lemma {:induction false} FoldCallsShowOwnNumbers(calls: seq<QueueCall>)
    ensures FoldCalls(calls).Some? ==> forall l :: l in FoldCalls(calls).value ==> ShowsOwnNumber(FoldCalls(calls).value[l])
    decreases |calls|
  {
    if calls == [] {
      FormatZeroIsPlaceholder();
    } else {
      FoldCallsShowOwnNumbers(calls[..|calls| - 1]);
    }
  }

  /** One step of the fold keeps every panel at its loket's highest number. */
  lemma FoldStepKeepsHighest(panels: map<int, LoketState>, calls: seq<QueueCall>)
    requires calls != [] && calls[|calls| - 1].queueNumber >= 1
    requires forall l :: l in panels ==> panels[l].lastCalled == HighestNumberAt(calls[..|calls| - 1], l)
    ensures var r := FoldStep(panels, calls[|calls| - 1]);
      r.Some? ==> forall l :: l in r.value ==> r.value[l].lastCalled == HighestNumberAt(calls, l)
  {
    var n := |calls| - 1;
    assert calls[..n + 1] == calls;
    forall l | l in panels
      ensures HighestNumberAt(calls, l) ==
        if calls[n].loketNumber == l && calls[n].queueNumber > HighestNumberAt(calls[..n], l)
        then calls[n].queueNumber else HighestNumberAt(calls[..n], l)
    {
      HighestNumberStep(calls, n, l);
    }
  }

  /** With positive numbers the `!lastCalled` test never replaces a larger number, so
      each panel ends with the highest number called at its loket. */
  lemma {:induction false} FoldCallsKeepHighest(calls: seq<QueueCall>)
    requires forall i :: 0 <= i < |calls| ==> calls[i].queueNumber >= 1
    ensures FoldCalls(calls).Some? ==>
      forall l :: l in FoldCalls(calls).value ==> FoldCalls(calls).value[l].lastCalled == HighestNumberAt(calls, l)
    decreases |calls|
  {
    if calls != [] {
      var n := |calls| - 1;
      var prefix := calls[..n];
      assert forall i :: 0 <= i < n ==> prefix[i] == calls[i];
      FoldCallsKeepHighest(prefix);
      if FoldCalls(prefix).Some? {
        FoldStepKeepsHighest(FoldCalls(prefix).value, calls);
      }
    }
  }

  /** The forEach of loadInitialState over the active calls. */
  method ReduceActiveCalls(calls: seq<QueueCall>) returns (r: Option<map<int, LoketState>>)
    ensures r == FoldCalls(calls)
    ensures r.Some? ==> forall l :: l in r.value <==> IsLoket(l)
    ensures r.Some? ==> forall l :: l in r.value ==> ShowsOwnNumber(r.value[l])
  {
    var loketStates := InitialLokets;
    var i := 0;
    while i < |calls|
      invariant 0 <= i <= |calls|
      invariant FoldCalls(calls[..i]) == Some(loketStates)
    {
      assert calls[..i + 1][..i] == calls[..i];
      var call := calls[i];
      if call.loketNumber !in loketStates {
        FoldCallsFails(calls[..i]);
        FoldCallsFails(calls);
        return None;
      }
      var entry := loketStates[call.loketNumber];
      if entry.lastCalled == 0 || call.queueNumber > entry.lastCalled {
        loketStates := loketStates[call.loketNumber := LoketState(FormatQueueNumber(call.queueNumber, "A"), call.queueNumber)];
      }
      i := i + 1;
    }
    assert calls[..i] == calls;
    FoldCallsFails(calls);
    FoldCallsShowOwnNumbers(calls);
    return Some(loketStates);
  }

  /** Loading fails, leaving the panels as they were, exactly when an active call
      names a loket other than 1, 2 and 3; otherwise every loket has its panel. */
  lemma LoadFailsOnForeignLoket(calls: seq<QueueCall>)
    ensures FoldCalls(Select(calls, AllActive)).None? <==>
      exists c :: c in calls && c.isActive && !IsLoket(c.loketNumber)
    ensures FoldCalls(Select(calls, AllActive)).Some? ==>
      forall l :: l in FoldCalls(Select(calls, AllActive)).value <==> IsLoket(l)
  {
    var active := Select(calls, AllActive);
    FoldCallsFails(active);
    if exists c :: c in calls && c.isActive && !IsLoket(c.loketNumber) {
      var c :| c in calls && c.isActive && !IsLoket(c.loketNumber);
      assert Matches(c, AllActive);
      assert c in active;
      var i :| 0 <= i < |active| && active[i] == c;
    }
    if FoldCalls(active).None? {
      var i :| 0 <= i < |active| && !IsLoket(active[i].loketNumber);
      assert active[i] in active;
    }
  }

  /** On a valid ledger every loaded panel shows the highest number called at its loket. */
  lemma LoadShowsHighestNumbers(calls: seq<QueueCall>, clock: int)
    requires LedgerValid(calls, clock)
    ensures var folded := FoldCalls(Select(calls, AllActive));
      folded.Some? ==> forall l :: l in folded.value ==> folded.value[l].lastCalled == HighestNumberAt(Select(calls, AllActive), l)
  {
    SelectedNumbersPositive(calls, clock, AllActive);
    FoldCallsKeepHighest(Select(calls, AllActive));
  }

  /** The key handler: '1', '2' and '3' name their loket, every other key none. */
  function LoketForKey(key: string): (l: Option<int>)
    ensures l.Some? ==> IsLoket(l.value) && NumberToString(l.value) == key
    ensures l.None? ==> forall n :: IsLoket(n) ==> NumberToString(n) != key
  {
    if key == "1" then Some(1)
    else if key == "2" then Some(2)
    else if key == "3" then Some(3)
    else None
  }

  class AdminPanel {
    var lokets: map<int, LoketState>
    var nextQueue: string

    /** Every loket panel exists and shows the label of its own number. */
    ghost predicate Valid()
      reads this
    {
      && (forall l :: IsLoket(l) ==> l in lokets)
      && forall l :: l in lokets ==> ShowsOwnNumber(lokets[l])
    }

    constructor ()
      ensures Valid()
      ensures lokets == InitialLokets && nextQueue == "A000"
    {
      FormatZeroIsPlaceholder();
      lokets := InitialLokets;
      nextQueue := "A000";
    }

    /** loadInitialState. `.single()` on the whole queue_state table yields a row only
        when the table holds exactly one; the active calls of every type are reduced
        to the panels, which stay as they were when a call names another loket. */
    method LoadInitialState(db: QueueDatabase)
      requires Valid()
      modifies this
      ensures Valid()
      ensures |db.states| == 1 ==>
        exists t :: t in db.states && nextQueue == FormatQueueNumber(db.states[t].currentNumber + 1, "A")
      ensures |db.states| != 1 ==> nextQueue == old(nextQueue)
      ensures var folded := FoldCalls(Select(db.calls, AllActive));
        lokets == if folded.Some? then folded.value else old(lokets)
    {
      if |db.states| == 1 {
        var t :| t in db.states;
        nextQueue := FormatQueueNumber(db.states[t].currentNumber + 1, "A");
      }
      var calls := Select(db.calls, AllActive);
      var reduced := ReduceActiveCalls(calls);
      if reduced.Some? {
        lokets := reduced.value;
      }
    }

    /** The queue_calls INSERT handler: the call's own loket shows its number,
        whatever its type or flag; every other entry is kept. */
    method OnCallInserted(call: QueueCall)
      requires Valid()
      modifies this
      ensures Valid()
      ensures call.loketNumber in lokets
      ensures lokets[call.loketNumber] == LoketState(FormatQueueNumber(call.queueNumber, "A"), call.queueNumber)
      ensures forall l :: l in old(lokets) && l != call.loketNumber ==> l in lokets && lokets[l] == old(lokets)[l]
      ensures lokets.Keys == old(lokets).Keys + {call.loketNumber}
      ensures nextQueue == old(nextQueue)
    {
      lokets := lokets[call.loketNumber := LoketState(FormatQueueNumber(call.queueNumber, "A"), call.queueNumber)];
    }

    /** The queue_state UPDATE handler: the next ticket is the new counter plus one. */
    method OnStateUpdated(row: QueueState)
      requires Valid()
      modifies this
      ensures Valid()
      ensures nextQueue == FormatQueueNumber(row.currentNumber + 1, "A")
      ensures lokets == old(lokets)
    {
      nextQueue := FormatQueueNumber(row.currentNumber + 1, "A");
    }

    /** handleCallNext: call the next ticket of type 'A' to `loket`; announce it, or
        report the error when callQueue gives back nothing. */
    method HandleCallNext(loket: int, db: QueueDatabase, insertFails: bool) returns (outcome: CallOutcome)
      requires db.Valid()
      modifies db
      ensures db.Valid()
      ensures outcome.ShowError? <==>
        || "A" !in old(db.states)
        || ActiveCallExists(old(db.calls), "A", old(db.states)["A"].currentNumber + 1)
        || insertFails
      ensures "A" !in old(db.states) ==> db.states == old(db.states)
      ensures "A" in old(db.states) ==>
        db.states == old(db.states)["A" := old(db.states)["A"].(currentNumber := old(db.states)["A"].currentNumber + 1)]
      ensures outcome.ShowError? ==> db.calls == old(db.calls)
      ensures outcome.Announce? ==>
        && outcome == Announce(old(db.states)["A"].currentNumber + 1, loket)
        && db.calls == old(db.calls) + [QueueCall(|old(db.calls)|, outcome.queueNumber, loket, old(db.clock), true, Some("A"))]
    {
      var result := db.CallQueue(loket, "A", insertFails);
      if result.Some? {
        outcome := Announce(result.value.queueNumber, loket);
      } else {
        outcome := ShowError;
      }
    }

    /** The keydown listener: a loket key calls the next ticket there, any other key does nothing. */
    method HandleKeyPress(key: string, db: QueueDatabase, insertFails: bool) returns (outcome: Option<CallOutcome>)
      requires db.Valid()
      modifies db
      ensures db.Valid()
      ensures outcome.None? <==> LoketForKey(key).None?
      ensures outcome.None? ==> db.calls == old(db.calls) && db.states == old(db.states)
      ensures outcome.Some? ==>
        (outcome.value.ShowError? <==>
          || "A" !in old(db.states)
          || ActiveCallExists(old(db.calls), "A", old(db.states)["A"].currentNumber + 1)
          || insertFails)
      ensures outcome.Some? && "A" in old(db.states) ==>
        db.states == old(db.states)["A" := old(db.states)["A"].(currentNumber := old(db.states)["A"].currentNumber + 1)]
      ensures outcome.Some? && "A" !in old(db.states) ==> db.states == old(db.states)
      ensures outcome.Some? && outcome.value.ShowError? ==> db.calls == old(db.calls)
      ensures outcome.Some? && outcome.value.Announce? ==>
        && outcome.value == Announce(old(db.states)["A"].currentNumber + 1, LoketForKey(key).value)
        && db.calls == old(db.calls) + [QueueCall(|old(db.calls)|, outcome.value.queueNumber, LoketForKey(key).value, old(db.clock), true, Some("A"))]
    {
      var loket := LoketForKey(key);
      if loket.None? {
        return None;
      }
      var result := HandleCallNext(loket.value, db, insertFails);
      return Some(result);
    }
  }
}
