/**
 * The public display (src/pages/Display.tsx): the headline call, the list of the
 * three newest active calls of type 'A', and one panel per loket projected from
 * that list. The component only replaces whole values, so it is modelled as
 * pure functions from the previous screen state and the ledger.
 */
module Display {
  import opened QueueManager

  /** The component's state: the fetched list and the headline call. */
  datatype DisplayState = DisplayState(queueCalls: seq<QueueCall>, latestCall: Option<QueueCall>)

  /** The `useState` initial values: no list and no headline. */
  const InitialDisplay := DisplayState([], None)

  /** `queue_type || 'A'`: an absent or empty type reads as 'A'. */
  function TypeOrDefault(t: Option<string>): (r: string)
    ensures r != []
    ensures r == "A" <==> t.None? || t.value == "" || t.value == "A"
    ensures t.Some? && t.value != "" ==> r == t.value
  {
    if t.Some? && t.value != "" then t.value else "A"
  }

  /** loadInitialData: fetch the list; its first entry, if any, becomes the headline. */
  function LoadInitialData(s: DisplayState, ledger: seq<QueueCall>): (r: DisplayState)
    ensures r.queueCalls == ActiveQueueCalls(ledger, "A")
    ensures |r.queueCalls| <= 3
    ensures forall c :: c in r.queueCalls ==> c in ledger && c.isActive && c.queueType == Some("A")
    ensures r.latestCall == if r.queueCalls == [] then s.latestCall else Some(r.queueCalls[0])
  {
    var calls := ActiveQueueCalls(ledger, "A");
    DisplayState(calls, if |calls| > 0 then Some(calls[0]) else s.latestCall)
  }

  /** The INSERT handler: the new call, of whatever type, becomes the headline and the
      list is fetched again from the ledger that now holds it. */
  function OnCallInserted(s: DisplayState, newCall: QueueCall, ledger: seq<QueueCall>): (r: DisplayState)
    ensures r.queueCalls == ActiveQueueCalls(ledger, "A")
    ensures r.latestCall == Some(newCall)
    ensures |r.queueCalls| <= 3
    ensures forall c :: c in r.queueCalls ==> c in ledger && c.isActive && c.queueType == Some("A")
  {
    DisplayState(ActiveQueueCalls(ledger, "A"), Some(newCall))
  }

  /** `queueCalls.find(call => call.loket_number === l)`. */
  function LoketEntry(calls: seq<QueueCall>, l: int): (r: Option<QueueCall>)
    ensures r.None? <==> forall i :: 0 <= i < |calls| ==> calls[i].loketNumber != l
    ensures r.Some? ==>
      exists i :: 0 <= i < |calls| && calls[i] == r.value && r.value.loketNumber == l
        && forall j :: 0 <= j < i ==> calls[j].loketNumber != l
    decreases |calls|
  {
    if calls == [] then None
    else if calls[0].loketNumber == l then Some(calls[0])
    else
      var rest := LoketEntry(calls[1..], l);
      assert forall i :: 1 <= i < |calls| ==> calls[i] == calls[1..][i - 1];
      if rest.Some? then
        ghost var k :| 0 <= k < |calls[1..]| && calls[1..][k] == rest.value && rest.value.loketNumber == l
          && forall j :: 0 <= j < k ==> calls[1..][j].loketNumber != l;
        assert calls[k + 1] == rest.value;
        rest
      else rest
  }

  /** The big number of a loket panel: its entry formatted as type 'A', or "---". */
  function PanelLabel(entry: Option<QueueCall>): (r: string)
    ensures r == "---" <==> entry.None?
    ensures entry.Some? ==> r == FormatQueueNumber(entry.value.queueNumber, "A")
  {
    if entry.Some? then
      var text := FormatQueueNumber(entry.value.queueNumber, "A");
      assert text[..1] == "A";
      text
    else "---"
  }

  /** The headline number: the latest call formatted with its own type, 'A' by default. */
  function HeadlineLabel(latest: QueueCall): (r: string)
    ensures latest.queueType.None? || latest.queueType == Some("") ==>
      r == FormatQueueNumber(latest.queueNumber, "A")
    ensures latest.queueType.Some? && latest.queueType.value != "" ==>
      r == FormatQueueNumber(latest.queueNumber, latest.queueType.value)
  {
    FormatQueueNumber(latest.queueNumber, TypeOrDefault(latest.queueType))
  }

  /** A call of type 'A', or one without a type, reads the same in the headline as on
      its panel. */
  lemma HeadlineAgreesWithPanel(c: QueueCall)
    requires c.queueType.None? || c.queueType == Some("A") || c.queueType == Some("")
    ensures HeadlineLabel(c) == PanelLabel(Some(c))
  {
  }

  /** In a newest-first list the entry a panel shows is the newest call of its loket. */
  lemma PanelShowsNewestOfLoket(calls: seq<QueueCall>, l: int)
    requires CalledAtDescending(calls)
    ensures LoketEntry(calls, l).Some? ==>
      forall d :: d in calls && d.loketNumber == l ==> d.calledAt <= LoketEntry(calls, l).value.calledAt
  {
    var e := LoketEntry(calls, l);
    if e.Some? {
      var i :| 0 <= i < |calls| && calls[i] == e.value && e.value.loketNumber == l
        && forall j :: 0 <= j < i ==> calls[j].loketNumber != l;
      forall d | d in calls && d.loketNumber == l ensures d.calledAt <= e.value.calledAt {
        var k :| 0 <= k < |calls| && calls[k] == d;
        assert k >= i;
      }
    }
  }

  /** Loading the display: the headline becomes the newest active call of type 'A',
      and stays as it was exactly when there is none. */
  lemma LoadShowsNewestCall(s: DisplayState, ledger: seq<QueueCall>)
    requires StampsIncreasing(ledger)
    ensures var r := LoadInitialData(s, ledger);
      && (r.queueCalls == [] <==> forall c :: c in ledger ==> !(c.isActive && c.queueType == Some("A")))
      && (r.queueCalls == [] ==> r.latestCall == s.latestCall)
      && (r.queueCalls != [] ==>
            && r.latestCall.Some?
            && r.latestCall.value in ledger && r.latestCall.value.isActive && r.latestCall.value.queueType == Some("A")
            && forall c :: c in ledger && c.isActive && c.queueType == Some("A") ==>
                 c.calledAt <= r.latestCall.value.calledAt)
  {
    var shown := ActiveQueueCalls(ledger, "A");
    if shown != [] {
      assert shown[0] in shown;
      forall c | c in ledger && c.isActive && c.queueType == Some("A") ensures c.calledAt <= shown[0].calledAt {
        if c in shown {
          var k :| 0 <= k < |shown| && shown[k] == c;
        }
      }
    }
  }

  /** A loket with an active call of type 'A' shows on its panel that call or a newer
      one of its own; it shows nothing only when the three newest calls of the list
      are all newer and belong to other lokets. */
  lemma PanelMissesOnlyCrowdedOutCalls(ledger: seq<QueueCall>, c: QueueCall)
    requires StampsIncreasing(ledger)
    requires c in ledger && c.isActive && c.queueType == Some("A")
    ensures var shown := ActiveQueueCalls(ledger, "A");
      match LoketEntry(shown, c.loketNumber)
      case Some(e) => e.loketNumber == c.loketNumber && c.calledAt <= e.calledAt
      case None => |shown| == 3 && forall k :: 0 <= k < 3 ==> c.calledAt < shown[k].calledAt
  {
    var shown := ActiveQueueCalls(ledger, "A");
    PanelShowsNewestOfLoket(shown, c.loketNumber);
    if c in shown {
      var k :| 0 <= k < |shown| && shown[k] == c;
    }
  }

  /** After an INSERT of the newest record, an active call of type 'A', that call heads
      the fetched list and is the entry shown on its own loket's panel. */
  lemma InsertedCallOnItsPanel(s: DisplayState, ledger: seq<QueueCall>)
    requires ledger != [] && StampsIncreasing(ledger)
    requires ledger[|ledger| - 1].isActive && ledger[|ledger| - 1].queueType == Some("A")
    ensures var newCall := ledger[|ledger| - 1];
      var r := OnCallInserted(s, newCall, ledger);
      && r.queueCalls != [] && r.queueCalls[0] == newCall
      && LoketEntry(r.queueCalls, newCall.loketNumber) == Some(newCall)
      && r.latestCall == Some(newCall)
  {
    var n := |ledger| - 1;
    var newCall := ledger[n];
    var shown := ActiveQueueCalls(ledger, "A");
    LastIsNewest(ledger);
    forall d | d in shown ensures d.calledAt <= newCall.calledAt {
      var m :| 0 <= m < |ledger| && ledger[m] == d;
      if m < n {
        assert ledger[..n][m] == d;
      }
    }
    assert newCall in shown;
    var k :| 0 <= k < |shown| && shown[k] == newCall;
    assert shown[0] in shown;
    assert k == 0;
  }

  /** Loaded from the initial state, the display has a headline exactly when the
      ledger holds an active call of type 'A'. */
  lemma FirstLoadHeadline(ledger: seq<QueueCall>)
    requires StampsIncreasing(ledger)
    ensures LoadInitialData(InitialDisplay, ledger).latestCall.None? <==>
      forall c :: c in ledger ==> !(c.isActive && c.queueType == Some("A"))
  {
    LoadShowsNewestCall(InitialDisplay, ledger);
  }
}
