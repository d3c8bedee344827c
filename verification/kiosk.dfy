/**
 * The ticket kiosk (src/pages/Kiosk.tsx): a visitor picks a queue type, the kiosk
 * reads that type's queue_state row, writes back the counter plus one (or creates
 * the row with 1 when there is none) and prints the ticket. A busy flag ignores
 * further selections while one is being handled.
 */
module Kiosk {
  import opened QueueManager

  /** A category offered at the kiosk: its queue_type key and its printed prefix. */
  datatype QueueKind = QueueKind(id: string, prefix: string)

  const QueueKinds: seq<QueueKind> := [QueueKind("A", "A"), QueueKind("B", "B")]

  /** The ticket label: the prefix, then the number left-padded with '0' to three places. */
  function TicketLabel(n: int, prefix: string): (r: string)
    ensures r == FormatQueueNumber(n, prefix)
  {
    prefix + PadStart(NumberToString(n), 3, '0')
  }

  /** The bootstrap toast's literal "001" is the label of ticket 1. */
  lemma BootstrapLabelIsTicketOne(prefix: string)
    ensures prefix + "001" == TicketLabel(1, prefix)
  {
    assert Digits(1) == ['1'];
    assert Repeat('0', 2) == ['0', '0'];
  }

  /** What the queue_state lookup hands back: the row, empty data, the "no single
      row" error (PGRST116), or any other error. */
  datatype StateLookup = Row(state: QueueState) | NoData | NoRowError | OtherError

  /** The lookup as `.maybeSingle()` answers it for a table with at most one row per
      type: the row when there is one, and empty data without an error when there
      is none. */
  function MaybeSingleLookup(states: map<string, QueueState>, t: string, lookupFails: bool): (r: StateLookup)
    ensures r != NoRowError
    ensures r == OtherError <==> lookupFails
    ensures r.Row? <==> !lookupFails && t in states
    ensures r.Row? ==> r.state == states[t]
  {
    if lookupFails then OtherError
    else if t in states then Row(states[t])
    else NoData
  }

  /** The lookup as the kiosk's bootstrap path reads it: a missing row is reported
      as the "no single row" error. */
  function StateLookupFor(states: map<string, QueueState>, t: string, lookupFails: bool): (r: StateLookup)
    ensures r != NoData
    ensures r == OtherError <==> lookupFails
    ensures r.Row? <==> !lookupFails && t in states
    ensures r.Row? ==> r.state == states[t]
  {
    if lookupFails then OtherError
    else if t in states then Row(states[t])
    else NoRowError
  }

  /** Which lookup a kiosk runs: the one the code makes (`.maybeSingle()`), or the
      one its bootstrap branch expects, which reports a missing row as an error. */
  datatype LookupReading = AsWritten | MissingRowReported

  function LookupBy(reading: LookupReading, states: map<string, QueueState>, t: string, lookupFails: bool): StateLookup {
    match reading
    case AsWritten => MaybeSingleLookup(states, t, lookupFails)
    case MissingRowReported => StateLookupFor(states, t, lookupFails)
  }

  /** What one selection ends in. */
  datatype TicketOutcome = Ignored | Issued(number: int, printed: string) | Failed

  /** The ticket a lookup leads to: the counter plus one for a row, ticket 1 when the
      row is created, and the error toast otherwise. Empty data throws when its
      `current_number` is read, so it fails too. */
  function TicketFor(lookup: StateLookup, kind: QueueKind, insertFails: bool): (r: TicketOutcome)
    ensures r != Ignored
    ensures r.Issued? <==> lookup.Row? || (lookup.NoRowError? && !insertFails)
    ensures r.Issued? ==> r.printed == FormatQueueNumber(r.number, kind.prefix)
    ensures lookup.Row? ==> r.number == lookup.state.currentNumber + 1
    ensures lookup.NoRowError? && r.Issued? ==> r.number == 1
  {
    match lookup
    case Row(state) => Issued(state.currentNumber + 1, TicketLabel(state.currentNumber + 1, kind.prefix))
    case NoRowError =>
      BootstrapLabelIsTicketOne(kind.prefix);
      if insertFails then Failed else Issued(1, kind.prefix + "001")
    case _ => Failed
  }

  /** The queue_state table after a selection: the counter written back, the new row,
      or no change. */
  function StatesAfter(states: map<string, QueueState>, lookup: StateLookup, t: string, insertFails: bool, now: int): (r: map<string, QueueState>)
    ensures forall u :: u != t ==> (u in r <==> u in states) && (u in states ==> r[u] == states[u])
    ensures lookup.Row? ==> r == states[t := lookup.state.(currentNumber := lookup.state.currentNumber + 1)]
    ensures lookup.NoRowError? && !insertFails ==> t in r && r[t] == QueueState(1, now)
    ensures !lookup.Row? && !(lookup.NoRowError? && !insertFails) ==> r == states
  {
    match lookup
    case Row(state) => states[t := state.(currentNumber := state.currentNumber + 1)]
    case NoRowError => if insertFails then states else states[t := QueueState(1, now)]
    case _ => states
  }

  /** Under either lookup, a ticket issued at the kiosk becomes the type's counter,
      and other types keep theirs; a selection that fails leaves the table as it was. */
  lemma IssuedTicketIsNewCounter(reading: LookupReading, states: map<string, QueueState>, kind: QueueKind, lookupFails: bool, insertFails: bool, now: int)
    requires CountersValid(states)
    ensures var lookup := LookupBy(reading, states, kind.id, lookupFails);
      var r := TicketFor(lookup, kind, insertFails);
      var after := StatesAfter(states, lookup, kind.id, insertFails, now);
      && CountersValid(after)
      && (r.Issued? ==> CurrentQueueNumber(after, kind.id) == r.number && r.number >= 1)
      && (r.Issued? && kind.id in states ==> r.number == CurrentQueueNumber(states, kind.id) + 1)
      && (r.Failed? ==> after == states)
      && forall u :: u != kind.id ==> CurrentQueueNumber(after, u) == CurrentQueueNumber(states, u)
  {
  }

  /** The missing-row case as the code runs it: `.maybeSingle()` gives empty data,
      reading its counter throws, and no ticket is ever issued for the type. */
  lemma MissingRowFailsAsWritten(states: map<string, QueueState>, kind: QueueKind, insertFails: bool)
    requires kind.id !in states
    ensures TicketFor(MaybeSingleLookup(states, kind.id, false), kind, insertFails) == Failed
  {
  }

  /** The missing-row case as the bootstrap path means it: the row is created and
      ticket 1 is issued. */
  lemma MissingRowBootstraps(states: map<string, QueueState>, kind: QueueKind, now: int)
    requires kind.id !in states
    ensures var lookup := StateLookupFor(states, kind.id, false);
      && TicketFor(lookup, kind, false) == Issued(1, FormatQueueNumber(1, kind.prefix))
      && StatesAfter(states, lookup, kind.id, false, now) == states[kind.id := QueueState(1, now)]
  {
  }

  class KioskScreen {
    var isProcessing: bool
    var selectedType: Option<string>

    constructor ()
      ensures !isProcessing && selectedType == None
    {
      isProcessing := false;
      selectedType := None;
    }

    /** The guard at the top of handleSelectQueue: while a selection is being handled
        another one is ignored; otherwise the kiosk marks itself busy. */
    method BeginSelection(kind: QueueKind) returns (accepted: bool)
      modifies this
      ensures accepted == !old(isProcessing)
      ensures accepted ==> isProcessing && selectedType == Some(kind.id)
      ensures !accepted ==> isProcessing == old(isProcessing) && selectedType == old(selectedType)
    {
      if isProcessing {
        return false;
      }
      isProcessing := true;
      selectedType := Some(kind.id);
      return true;
    }

    /** The body of handleSelectQueue: look up the row, then write back the counter plus
        one, or create the row when the lookup reports it missing; empty data fails.
        The `finally` clears the busy flag whatever happened. The result of the
        counter update is not checked, so that write always lands. */
    method IssueTicket(kind: QueueKind, db: QueueDatabase, reading: LookupReading, lookupFails: bool, insertFails: bool, now: int)
      returns (outcome: TicketOutcome)
      requires db.Valid()
      modifies this, db
      ensures db.Valid()
      ensures var lookup := LookupBy(reading, old(db.states), kind.id, lookupFails);
        && outcome == TicketFor(lookup, kind, insertFails)
        && db.states == StatesAfter(old(db.states), lookup, kind.id, insertFails, now)
      ensures db.calls == old(db.calls) && db.clock == old(db.clock)
      ensures !isProcessing && selectedType == None
    {
      var lookup := LookupBy(reading, db.states, kind.id, lookupFails);
      match lookup {
        case Row(state) =>
          var nextNumber := state.currentNumber + 1;
          db.states := db.states[kind.id := state.(currentNumber := nextNumber)];
          outcome := Issued(nextNumber, TicketLabel(nextNumber, kind.prefix));
        case NoRowError =>
          if insertFails {
            outcome := Failed;
          } else {
            db.states := db.states[kind.id := QueueState(1, now)];
            outcome := Issued(1, kind.prefix + "001");
          }
        case _ =>
          outcome := Failed;
      }
      isProcessing := false;
      selectedType := None;
    }

    /** handleSelectQueue: ignored while busy, otherwise one ticket attempt. */
    method HandleSelectQueue(kind: QueueKind, db: QueueDatabase, reading: LookupReading, lookupFails: bool, insertFails: bool, now: int)
      returns (outcome: TicketOutcome)
      requires db.Valid()
      modifies this, db
      ensures db.Valid()
      ensures db.calls == old(db.calls) && db.clock == old(db.clock)
      ensures old(isProcessing) ==>
        && outcome == Ignored
        && db.states == old(db.states)
        && isProcessing && selectedType == old(selectedType)
      ensures !old(isProcessing) ==>
        var lookup := LookupBy(reading, old(db.states), kind.id, lookupFails);
        && outcome == TicketFor(lookup, kind, insertFails)
        && db.states == StatesAfter(old(db.states), lookup, kind.id, insertFails, now)
        && !isProcessing && selectedType == None
    {
      var accepted := BeginSelection(kind);
      if !accepted {
        return Ignored;
      }
      outcome := IssueTicket(kind, db, reading, lookupFails, insertFails, now);
    }
  }

  /** A second tap while the first selection is still in flight prints nothing. */
  method DoubleTapScenario(db: QueueDatabase, now: int) returns (second: bool, outcome: TicketOutcome)
    requires db.Valid() && "A" in db.states
    modifies db
    ensures !second
    ensures outcome == Issued(old(db.states)["A"].currentNumber + 1, FormatQueueNumber(old(db.states)["A"].currentNumber + 1, "A"))
  {
    var kiosk := new KioskScreen();
    var first := kiosk.BeginSelection(QueueKinds[0]);
    second := kiosk.BeginSelection(QueueKinds[0]);
    outcome := kiosk.IssueTicket(QueueKinds[0], db, AsWritten, false, false, now);
  }

  /** The kiosk and callQueue advance the same counter: after the kiosk prints A001
      on a fresh queue, the next call at a loket announces number 2, and ticket 1 is
      never called. */
  method SharedCounterScenario(now: int) returns (ticket: TicketOutcome, called: Option<QueueCall>)
    ensures ticket == Issued(1, "A001")
    ensures called.Some? && called.value.queueNumber == 2
  {
    var db := new QueueDatabase({"A"}, now);
    var kiosk := new KioskScreen();
    assert "A" in db.states && db.states["A"].currentNumber == 0;
    ticket := kiosk.HandleSelectQueue(QueueKinds[0], db, AsWritten, false, false, now);
    BootstrapLabelIsTicketOne("A");
    assert ticket == Issued(1, FormatQueueNumber(1, "A"));
    called := db.CallQueue(1, "A", false);
  }

  /** A type without a `queue_state` row: the kiosk as written shows the error and
      creates nothing, while the bootstrap reading creates the row and prints ticket 1. */
  method MissingTypeScenario(now: int) returns (asWritten: TicketOutcome, intended: TicketOutcome, created: bool)
    ensures asWritten == Failed
    ensures intended == Issued(1, "B001")
    ensures !created
  {
    var db := new QueueDatabase({"A"}, now);
    var kiosk := new KioskScreen();
    assert "B" !in db.states;
    asWritten := kiosk.HandleSelectQueue(QueueKinds[1], db, AsWritten, false, false, now);
    created := "B" in db.states;
    BootstrapLabelIsTicketOne("B");
    intended := kiosk.HandleSelectQueue(QueueKinds[1], db, MissingRowReported, false, false, now);
  }
}
