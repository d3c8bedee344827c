/**
 * The ticket-numbering and call-ledger engine of the queue system
 * (src/lib/queueManager.ts).
 *
 * The two database tables are held in memory by `QueueDatabase`:
 *   - `queue_state`, one row per queue type with its `current_number`;
 *   - `queue_calls`, an append-only ledger of `QueueCall` records.
 * The read-only queries are filter / order / limit over the ledger and are
 * written as functions; the operations that change the tables are methods.
 */
module QueueManager {

  datatype Option<+T> = None | Some(value: T)

  // ------------------------------------------------------------------------
  // Ticket formatting: `${queueType}${String(num).padStart(3, '0')}`
  // ------------------------------------------------------------------------

  predicate IsDigit(c: char) {
    '0' <= c <= '9'
  }

  function DigitValue(c: char): int {
    c as int - '0' as int
  }

  function DigitChar(d: int): (c: char)
    requires 0 <= d < 10
    ensures IsDigit(c) && DigitValue(c) == d
  {
    ('0' as int + d) as char
  }

  /** The value of a string of decimal digits, most significant first. */
  function ParseDecimal(s: string): int
  {
    if s == [] then 0 else ParseDecimal(s[..|s| - 1]) * 10 + DigitValue(s[|s| - 1])
  }

  /** The decimal digits of a non-negative integer, as String(n) prints them. */
  function Digits(n: nat): (s: string)
    ensures 1 <= |s|
    ensures forall i :: 0 <= i < |s| ==> IsDigit(s[i])
    ensures s[0] == '0' ==> n == 0
  {
    if n < 10 then [DigitChar(n)] else Digits(n / 10) + [DigitChar(n % 10)]
  }

  /** String(n) for an integer: a minus sign, then the digits of -n, when n is negative. */
  function NumberToString(n: int): string
  {
    if n < 0 then "-" + Digits(-n) else Digits(n)
  }

  function Repeat(c: char, k: nat): (r: string)
    ensures |r| == k
    ensures forall i :: 0 <= i < k ==> r[i] == c
  {
    if k == 0 then [] else [c] + Repeat(c, k - 1)
  }

  /** String.prototype.padStart with a one-character filler: never shortens `s`. */
  function PadStart(s: string, width: nat, fill: char): (r: string)
    ensures |r| == if |s| < width then width else |s|
  {
    if |s| < width then Repeat(fill, width - |s|) + s else s
  }

  /** formatQueueNumber: the queue type followed by the number, zero-padded to at least 3 characters. */
  function FormatQueueNumber(num: int, queueType: string): (r: string)
    ensures |r| >= |queueType| + 3
    ensures r[..|queueType|] == queueType
  {
    queueType + PadStart(NumberToString(num), 3, '0')
  }

  lemma {:induction false} ParseAllZeros(z: string)
    requires forall i :: 0 <= i < |z| ==> z[i] == '0'
    ensures ParseDecimal(z) == 0
    decreases |z|
  {
    if z != [] {
      ParseAllZeros(z[..|z| - 1]);
    }
  }

  /** Leading zeros do not change the value of a digit string. */
  lemma {:induction false} ParseLeadingZeros(z: string, s: string)
    requires forall i :: 0 <= i < |z| ==> z[i] == '0'
    ensures ParseDecimal(z + s) == ParseDecimal(s)
    decreases |s|
  {
    if s == [] {
      assert z + s == z;
      ParseAllZeros(z);
    } else {
      var n := |s| - 1;
      assert (z + s)[..|z + s| - 1] == z + s[..n];
      ParseLeadingZeros(z, s[..n]);
    }
  }

  /** Reading back the printed digits gives the number. */
  lemma {:induction false} DigitsRoundTrip(n: nat)
    ensures ParseDecimal(Digits(n)) == n
    decreases n
  {
    if n < 10 {
      assert Digits(n)[..0] == [];
    } else {
      var d := Digits(n / 10);
      assert (d + [DigitChar(n % 10)])[..|d|] == d;
      DigitsRoundTrip(n / 10);
    }
  }

  /** Behind the type prefix a formatted ticket holds only digits, at least three
      of them, and they read back as the ticket number: nothing is truncated. */
  lemma FormatRoundTrip(n: nat, queueType: string)
    ensures var r := FormatQueueNumber(n, queueType);
      && (forall i :: |queueType| <= i < |r| ==> IsDigit(r[i]))
      && ParseDecimal(r[|queueType|..]) == n
  {
    var digits := Digits(n);
    var r := FormatQueueNumber(n, queueType);
    assert r[|queueType|..] == PadStart(digits, 3, '0');
    DigitsRoundTrip(n);
    if |digits| < 3 {
      ParseLeadingZeros(Repeat('0', 3 - |digits|), digits);
    }
  }

  /** Two tickets of one queue type with different numbers never share a label. */
  lemma FormatQueueNumberInjective(n: nat, m: nat, queueType: string)
    requires FormatQueueNumber(n, queueType) == FormatQueueNumber(m, queueType)
    ensures n == m
  {
    FormatRoundTrip(n, queueType);
    FormatRoundTrip(m, queueType);
  }

  /** One more digit for every factor of ten. */
  lemma DigitsStep(n: nat)
    requires n >= 10
    ensures |Digits(n)| == |Digits(n / 10)| + 1
  {
  }

  /** Numbers below 1000 get exactly three digits. */
  lemma FormatSmallNumbersPadded(n: nat, queueType: string)
    requires n < 1000
    ensures |FormatQueueNumber(n, queueType)| == |queueType| + 3
  {
    if n >= 10 {
      DigitsStep(n);
      if n / 10 >= 10 {
        DigitsStep(n / 10);
      }
    }
  }

  /** Numbers of three or more digits are printed whole, without padding or truncation. */
  lemma FormatWideNumbersUnpadded(n: nat, queueType: string)
    requires n >= 100
    ensures FormatQueueNumber(n, queueType) == queueType + Digits(n)
  {
    DigitsStep(n);
    DigitsStep(n / 10);
    assert |Digits(n)| >= 3;
    assert PadStart(Digits(n), 3, '0') == Digits(n);
  }

  /** The placeholder "A000" shown before any call is the label of number 0. */
  lemma FormatZeroIsPlaceholder()
    ensures FormatQueueNumber(0, "A") == "A000"
  {
    assert Digits(0) == ['0'];
    assert Repeat('0', 2) == ['0', '0'];
  }

  // ------------------------------------------------------------------------
  // The tables
  // ------------------------------------------------------------------------

  /** A row of queue_calls. `id` is the row's position in the ledger, `calledAt`
      stands for the called_at timestamp the database gives the row when it is
      inserted, and `queueType` is a nullable column. */
  datatype QueueCall = QueueCall(
    id: nat,
    queueNumber: int,
    loketNumber: int,
    calledAt: int,
    isActive: bool,
    queueType: Option<string>)

  /** A row of queue_state; the table is keyed by its queue type. */
  datatype QueueState = QueueState(currentNumber: int, lastResetAt: int)

  /** The `.eq(column, value)` filters of a query on queue_calls; None leaves a column unfiltered. */
  datatype Filter = Filter(
    isActive: Option<bool>,
    queueType: Option<string>,
    loketNumber: Option<int>,
    queueNumber: Option<int>)

  predicate Matches(c: QueueCall, f: Filter) {
    && (f.isActive.Some? ==> c.isActive == f.isActive.value)
    && (f.queueType.Some? ==> c.queueType == f.queueType)
    && (f.loketNumber.Some? ==> c.loketNumber == f.loketNumber.value)
    && (f.queueNumber.Some? ==> c.queueNumber == f.queueNumber.value)
  }

  /** is_active = true, queue_type = t */
  function ActiveOfType(t: string): Filter {
    Filter(Some(true), Some(t), None, None)
  }

  /** queue_number = n, queue_type = t, is_active = true */
  function ActiveWithNumber(t: string, n: int): Filter {
    Filter(Some(true), Some(t), None, Some(n))
  }

  /** loket_number = loket, queue_type = t */
  function OfLoket(loket: int, t: string): Filter {
    Filter(None, Some(t), Some(loket), None)
  }

  /** is_active = true */
  const AllActive := Filter(Some(true), None, None, None)

  /** called_at grows with every insert. */
  predicate StampsIncreasing(calls: seq<QueueCall>) {
    forall i, j :: 0 <= i < j < |calls| ==> calls[i].calledAt < calls[j].calledAt
  }

  /** The order of `.order('called_at', { ascending: false })`. */
  predicate CalledAtDescending(s: seq<QueueCall>) {
    forall i, j :: 0 <= i < j < |s| ==> s[i].calledAt > s[j].calledAt
  }

  /** The double-call guard's invariant: at most one active record per (type, number). */
  predicate UniqueActive(calls: seq<QueueCall>) {
    forall i, j ::
      0 <= i < j < |calls| && calls[i].isActive && calls[j].isActive
      && calls[i].queueType == calls[j].queueType
      ==> calls[i].queueNumber != calls[j].queueNumber
  }

  predicate ActiveCallExists(calls: seq<QueueCall>, t: string, n: int) {
    exists c :: c in calls && Matches(c, ActiveWithNumber(t, n))
  }

  /** What every sequence of the engine's operations keeps true of the ledger. */
  predicate LedgerValid(calls: seq<QueueCall>, clock: int) {
    && StampsIncreasing(calls)
    && UniqueActive(calls)
    && forall i :: 0 <= i < |calls| ==>
         calls[i].id == i && calls[i].queueNumber >= 1 && calls[i].calledAt < clock
  }

  /** No counter is negative. */
  predicate CountersValid(states: map<string, QueueState>) {
    forall t :: t in states ==> states[t].currentNumber >= 0
  }

  // ------------------------------------------------------------------------
  // Queries: filter / order / limit over the ledger
  // ------------------------------------------------------------------------

  /** Facts about the last record of a ledger and the records before it. */
  lemma LastIsNewest(calls: seq<QueueCall>)
    requires calls != []
    ensures StampsIncreasing(calls) ==> StampsIncreasing(calls[..|calls| - 1])
    ensures StampsIncreasing(calls) ==>
      forall c :: c in calls[..|calls| - 1] ==> c.calledAt < calls[|calls| - 1].calledAt
  {
    var n := |calls| - 1;
    if StampsIncreasing(calls) {
      forall c | c in calls[..n] ensures c.calledAt < calls[n].calledAt {
        var k :| 0 <= k < n && calls[..n][k] == c;
      }
    }
  }

  /** The records matching `f`, newest first. */
  function Select(calls: seq<QueueCall>, f: Filter): (r: seq<QueueCall>)
    ensures |r| <= |calls|
    ensures forall c :: c in r <==> c in calls && Matches(c, f)
    ensures StampsIncreasing(calls) ==> CalledAtDescending(r)
    decreases |calls|
  {
    if calls == [] then []
    else
      var n := |calls| - 1;
      var earlier := Select(calls[..n], f);
      assert calls == calls[..n] + [calls[n]];
      LastIsNewest(calls);
      if Matches(calls[n], f) then [calls[n]] + earlier else earlier
  }

  lemma {:induction false} SelectNoneMatching(calls: seq<QueueCall>, f: Filter)
    requires forall c :: c in calls ==> !Matches(c, f)
    ensures Select(calls, f) == []
    decreases |calls|
  {
    if calls != [] {
      SelectNoneMatching(calls[..|calls| - 1], f);
    }
  }

  /** The first record of a non-empty selection is the newest matching record. */
  lemma SelectHeadIsNewest(calls: seq<QueueCall>, f: Filter)
    requires StampsIncreasing(calls)
    requires Select(calls, f) != []
    ensures forall d :: d in calls && Matches(d, f) ==> d.calledAt <= Select(calls, f)[0].calledAt
  {
    var m := Select(calls, f);
    forall d | d in calls && Matches(d, f) ensures d.calledAt <= m[0].calledAt {
      var k :| 0 <= k < |m| && m[k] == d;
    }
  }

  /** Under the guard's invariant the duplicate check finds at most one record,
      so `.maybeSingle()` never sees several rows. */
  lemma {:induction false} ActiveMatchesAtMostOne(calls: seq<QueueCall>, t: string, n: int)
    requires UniqueActive(calls)
    ensures |Select(calls, ActiveWithNumber(t, n))| <= 1
    decreases |calls|
  {
    if calls != [] {
      var f := ActiveWithNumber(t, n);
      var k := |calls| - 1;
      var prefix := calls[..k];
      assert UniqueActive(prefix) by {
        forall i, j | 0 <= i < j < |prefix| ensures prefix[i] == calls[i] && prefix[j] == calls[j] { }
      }
      if Matches(calls[k], f) {
        forall c | c in prefix ensures !Matches(c, f) {
          var i :| 0 <= i < k && prefix[i] == c;
          assert calls[i] == c;
        }
        SelectNoneMatching(prefix, f);
      } else {
        ActiveMatchesAtMostOne(prefix, t, n);
      }
    }
  }

  /** Every number a query returns from a valid ledger is a real ticket number. */
  lemma SelectedNumbersPositive(calls: seq<QueueCall>, clock: int, f: Filter)
    requires LedgerValid(calls, clock)
    ensures forall i :: 0 <= i < |Select(calls, f)| ==> Select(calls, f)[i].queueNumber >= 1
  {
    var m := Select(calls, f);
    forall i | 0 <= i < |m| ensures m[i].queueNumber >= 1 {
      assert m[i] in m;
      var k :| 0 <= k < |calls| && calls[k] == m[i];
    }
  }

  /** getActiveQueueCalls: the active calls of type `t`, newest first, at most 3. */
  function ActiveQueueCalls(calls: seq<QueueCall>, t: string): (r: seq<QueueCall>)
    ensures |r| <= 3
    ensures forall c :: c in r ==> c in calls && c.isActive && c.queueType == Some(t)
    ensures StampsIncreasing(calls) ==> CalledAtDescending(r)
    ensures StampsIncreasing(calls) ==>
      forall c :: c in calls && c.isActive && c.queueType == Some(t) && c !in r ==>
        |r| == 3 && forall k :: 0 <= k < 3 ==> c.calledAt < r[k].calledAt
  {
    var matching := Select(calls, ActiveOfType(t));
    var r := if |matching| <= 3 then matching else matching[..3];
    KeptAreMatching(matching, r, calls, t);
    OmittedAreOlder(matching, r, calls, t);
    r
  }

  /** The records kept by the limit are matching records, in the same order. */
  lemma KeptAreMatching(matching: seq<QueueCall>, r: seq<QueueCall>, calls: seq<QueueCall>, t: string)
    requires matching == Select(calls, ActiveOfType(t))
    requires r == if |matching| <= 3 then matching else matching[..3]
    ensures forall c :: c in r ==> c in calls && c.isActive && c.queueType == Some(t)
    ensures StampsIncreasing(calls) ==> CalledAtDescending(r)
  {
    assert forall k :: 0 <= k < |r| ==> r[k] == matching[k];
    forall c | c in r ensures c in matching {
      var k :| 0 <= k < |r| && r[k] == c;
    }
  }

  /** A matching record left out by the limit is older than every record kept. */
  lemma OmittedAreOlder(matching: seq<QueueCall>, r: seq<QueueCall>, calls: seq<QueueCall>, t: string)
    requires matching == Select(calls, ActiveOfType(t))
    requires r == if |matching| <= 3 then matching else matching[..3]
    ensures StampsIncreasing(calls) ==>
      forall c :: c in calls && c.isActive && c.queueType == Some(t) && c !in r ==>
        |r| == 3 && forall k :: 0 <= k < 3 ==> c.calledAt < r[k].calledAt
  {
    if StampsIncreasing(calls) {
      forall c | c in calls && c.isActive && c.queueType == Some(t) && c !in r
        ensures |r| == 3 && forall k :: 0 <= k < 3 ==> c.calledAt < r[k].calledAt
      {
        assert c in matching;
        var idx :| 0 <= idx < |matching| && matching[idx] == c;
        assert forall k :: 0 <= k < |r| ==> r[k] == matching[k] && r[k] in r;
        assert idx >= |r|;
      }
    }
  }

  /** getCurrentQueueNumber: the stored counter, or 0 when the type has no row. */
  function CurrentQueueNumber(states: map<string, QueueState>, t: string): (n: int)
    ensures CountersValid(states) ==> n >= 0
    ensures t in states ==> n == states[t].currentNumber
    ensures t !in states ==> n == 0
  {
    if t in states then states[t].currentNumber else 0
  }

  /** recallLastQueue: the number of the newest call of (loket, type), active or not. */
  function RecallLast(calls: seq<QueueCall>, loket: int, t: string): (r: Option<int>)
    ensures r.None? <==> forall c :: c in calls ==> !Matches(c, OfLoket(loket, t))
    ensures r.Some? ==>
      exists c :: c in calls && Matches(c, OfLoket(loket, t)) && c.queueNumber == r.value
        && (StampsIncreasing(calls) ==>
              forall d :: d in calls && Matches(d, OfLoket(loket, t)) ==> d.calledAt <= c.calledAt)
  {
    var m := Select(calls, OfLoket(loket, t));
    if m == [] then None
    else
      assert m[0] in m;
      if StampsIncreasing(calls) then SelectHeadIsNewest(calls, OfLoket(loket, t)); Some(m[0].queueNumber)
      else Some(m[0].queueNumber)
  }

  // ------------------------------------------------------------------------
  // The bulk deactivation of a reset
  // ------------------------------------------------------------------------

  /** UPDATE queue_calls SET is_active = false WHERE is_active AND queue_type = t. */
  function Deactivated(calls: seq<QueueCall>, t: string): (r: seq<QueueCall>)
    ensures |r| == |calls|
    ensures forall i :: 0 <= i < |calls| ==> r[i] == calls[i].(isActive := r[i].isActive)
    ensures forall i :: 0 <= i < |calls| ==>
      r[i].isActive == (calls[i].isActive && calls[i].queueType != Some(t))
    decreases |calls|
  {
    if calls == [] then []
    else
      var n := |calls| - 1;
      var last := calls[n];
      Deactivated(calls[..n], t)
        + [if last.isActive && last.queueType == Some(t) then last.(isActive := false) else last]
  }

  /** Records of other types are left exactly as they were. */
  lemma DeactivatedLeavesOtherTypes(calls: seq<QueueCall>, t: string)
    ensures forall i :: 0 <= i < |calls| && calls[i].queueType != Some(t) ==>
      Deactivated(calls, t)[i] == calls[i]
  {
  }

  lemma DeactivatedKeepsLedgerValid(calls: seq<QueueCall>, clock: int, t: string)
    requires LedgerValid(calls, clock)
    ensures LedgerValid(Deactivated(calls, t), clock)
  {
    var r := Deactivated(calls, t);
    assert forall i :: 0 <= i < |calls| ==>
      r[i].id == calls[i].id && r[i].queueNumber == calls[i].queueNumber
      && r[i].calledAt == calls[i].calledAt && r[i].queueType == calls[i].queueType;
  }

  /** After deactivation no call of that type is active. */
  lemma NoActiveAfterDeactivation(calls: seq<QueueCall>, t: string)
    ensures Select(Deactivated(calls, t), ActiveOfType(t)) == []
    ensures ActiveQueueCalls(Deactivated(calls, t), t) == []
  {
    var r := Deactivated(calls, t);
    forall c | c in r ensures !Matches(c, ActiveOfType(t)) {
      var i :| 0 <= i < |r| && r[i] == c;
    }
    SelectNoneMatching(r, ActiveOfType(t));
  }

  /** Two ledgers that differ at most in their is_active flags. */
  predicate SameExceptFlags(a: seq<QueueCall>, b: seq<QueueCall>) {
    |a| == |b| && forall i :: 0 <= i < |a| ==> a[i] == b[i].(isActive := a[i].isActive)
  }

  /** A query that does not filter on is_active sees the same records, flags aside. */
  lemma {:induction false} SelectIgnoresFlags(a: seq<QueueCall>, b: seq<QueueCall>, f: Filter)
    requires f.isActive.None? && SameExceptFlags(a, b)
    ensures SameExceptFlags(Select(a, f), Select(b, f))
    decreases |a|
  {
    if a != [] {
      var n := |a| - 1;
      SameExceptFlagsPrefix(a, b, n);
      SelectIgnoresFlags(a[..n], b[..n], f);
      SelectLast(a, f);
      SelectLast(b, f);
      if Matches(a[n], f) {
        PrependKeepsSameExceptFlags(a[n], b[n], Select(a[..n], f), Select(b[..n], f));
      }
    }
  }

  /** Unfolding Select at the newest record. */
  lemma SelectLast(calls: seq<QueueCall>, f: Filter)
    requires calls != []
    ensures var n := |calls| - 1;
      Select(calls, f) == if Matches(calls[n], f) then [calls[n]] + Select(calls[..n], f) else Select(calls[..n], f)
  {
  }

  lemma SameExceptFlagsPrefix(a: seq<QueueCall>, b: seq<QueueCall>, n: nat)
    requires SameExceptFlags(a, b) && n <= |a|
    ensures SameExceptFlags(a[..n], b[..n])
  {
    forall i | 0 <= i < n ensures a[..n][i] == b[..n][i].(isActive := a[..n][i].isActive) {
      assert a[..n][i] == a[i] && b[..n][i] == b[i];
    }
  }

  lemma PrependKeepsSameExceptFlags(x: QueueCall, y: QueueCall, a: seq<QueueCall>, b: seq<QueueCall>)
    requires x == y.(isActive := x.isActive) && SameExceptFlags(a, b)
    ensures SameExceptFlags([x] + a, [y] + b)
  {
    forall i | 0 <= i < |a| + 1 ensures ([x] + a)[i] == ([y] + b)[i].(isActive := ([x] + a)[i].isActive) {
      if i > 0 {
        assert ([x] + a)[i] == a[i - 1] && ([y] + b)[i] == b[i - 1];
      }
    }
  }

  /** A reset does not change what recall returns: recall does not filter on is_active. */
  lemma RecallIgnoresReset(calls: seq<QueueCall>, loket: int, t: string, reset: string)
    ensures RecallLast(Deactivated(calls, reset), loket, t) == RecallLast(calls, loket, t)
  {
    SelectIgnoresFlags(Deactivated(calls, reset), calls, OfLoket(loket, t));
  }

  /** Appending a call whose (type, number) has no active record keeps the ledger valid. */
  lemma AppendKeepsLedgerValid(calls: seq<QueueCall>, clock: int, call: QueueCall)
    requires LedgerValid(calls, clock)
    requires call.id == |calls| && call.queueNumber >= 1 && call.calledAt == clock
    requires call.queueType.Some?
    requires !ActiveCallExists(calls, call.queueType.value, call.queueNumber)
    ensures LedgerValid(calls + [call], clock + 1)
  {
    var r := calls + [call];
    forall i | 0 <= i < |calls| && calls[i].isActive && call.isActive && calls[i].queueType == call.queueType
      ensures calls[i].queueNumber != call.queueNumber
    {
      assert calls[i] in calls;
      assert !Matches(calls[i], ActiveWithNumber(call.queueType.value, call.queueNumber));
    }
  }

  /** Zeroing one type's counter keeps the counters valid and leaves the others alone. */
  lemma ZeroedCounter(states: map<string, QueueState>, t: string, now: int)
    requires CountersValid(states)
    ensures var after := if t in states then states[t := QueueState(0, now)] else states;
      && CountersValid(after)
      && CurrentQueueNumber(after, t) == 0
      && forall u :: u != t ==> CurrentQueueNumber(after, u) == CurrentQueueNumber(states, u)
  {
  }

  // ------------------------------------------------------------------------
  // The database and the operations that change it
  // ------------------------------------------------------------------------

  datatype AllocationError = StateNotFound(queueType: string)

  datatype Allocation = Allocated(number: int) | AllocationFailed(error: AllocationError)

  /** Which storage write of resetQueue reports an error, if any. */
  datatype ResetFault = NoResetFault | StateUpdateFails | CallsUpdateFails

  class QueueDatabase {
    var states: map<string, QueueState>
    var calls: seq<QueueCall>
    /** The database's clock: the called_at of the next inserted call. */
    var clock: int

    ghost predicate Valid()
      reads this
    {
      CountersValid(states) && LedgerValid(calls, clock)
    }

    /** Provisioned queue types, every counter at 0, an empty ledger. */
    constructor (queueTypes: set<string>, now: int)
      ensures Valid()
      ensures states == map t | t in queueTypes :: QueueState(0, now)
      ensures calls == []
    {
      states := map t | t in queueTypes :: QueueState(0, now);
      calls := [];
      clock := now;
    }

    /** getNextQueueNumber: read the counter, add one, write it back. */
    method GetNextQueueNumber(t: string) returns (r: Allocation)
      requires Valid()
      modifies this
      ensures Valid()
      ensures calls == old(calls) && clock == old(clock)
      ensures t !in old(states) ==> r == AllocationFailed(StateNotFound(t)) && states == old(states)
      ensures t in old(states) ==>
        && r == Allocated(old(states)[t].currentNumber + 1)
        && states == old(states)[t := old(states)[t].(currentNumber := r.number)]
        && CurrentQueueNumber(states, t) == old(CurrentQueueNumber(states, t)) + 1
      ensures forall u :: u != t ==> CurrentQueueNumber(states, u) == old(CurrentQueueNumber(states, u))
    {
      if t !in states {
        return AllocationFailed(StateNotFound(t));
      }
      var state := states[t];
      var nextNumber := state.currentNumber + 1;
      states := states[t := state.(currentNumber := nextNumber)];
      return Allocated(nextNumber);
    }

    /** callQueue: allocate a number, refuse it if an active call already holds it,
        otherwise append an active call for `loket`. `insertFails` stands for the
        insert reporting a storage error. */
    method CallQueue(loket: int, t: string, insertFails: bool) returns (r: Option<QueueCall>)
      requires Valid()
      modifies this
      ensures Valid()
      ensures t !in old(states) ==> r == None && states == old(states) && calls == old(calls)
      ensures t in old(states) ==>
        states == old(states)[t := old(states)[t].(currentNumber := old(states)[t].currentNumber + 1)]
      ensures r.None? <==>
        || t !in old(states)
        || ActiveCallExists(old(calls), t, old(states)[t].currentNumber + 1)
        || insertFails
      ensures r.None? ==> calls == old(calls)
      ensures r.Some? ==>
        && r.value == QueueCall(|old(calls)|, old(states)[t].currentNumber + 1, loket, old(clock), true, Some(t))
        && calls == old(calls) + [r.value]
    {
      var allocation := GetNextQueueNumber(t);
      if allocation.AllocationFailed? {
        return None;
      }
      var queueNumber := allocation.number;
      // `.maybeSingle()` yields a row only when exactly one record matches
      var existing := Select(calls, ActiveWithNumber(t, queueNumber));
      ActiveMatchesAtMostOne(calls, t, queueNumber);
      if |existing| == 1 {
        assert existing[0] in existing;
        return None;
      }
      if insertFails {
        return None;
      }
      var call := QueueCall(|calls|, queueNumber, loket, clock, true, Some(t));
      AppendKeepsLedgerValid(calls, clock, call);
      calls := calls + [call];
      clock := clock + 1;
      return Some(call);
    }

    /** resetQueue: zero the counter, then deactivate the type's active calls.
        The two writes are separate; a fault in the second leaves the first done. */
    method ResetQueue(t: string, now: int, fault: ResetFault) returns (ok: bool)
      requires Valid()
      modifies this
      ensures Valid()
      ensures clock == old(clock)
      ensures ok <==> fault == NoResetFault
      ensures fault == StateUpdateFails ==> states == old(states)
      ensures fault != StateUpdateFails ==>
        states == if t in old(states) then old(states)[t := QueueState(0, now)] else old(states)
      ensures calls == if fault == NoResetFault then Deactivated(old(calls), t) else old(calls)
      ensures ok ==> CurrentQueueNumber(states, t) == 0 && ActiveQueueCalls(calls, t) == []
      ensures forall u :: u != t ==> CurrentQueueNumber(states, u) == old(CurrentQueueNumber(states, u))
    {
      if fault == StateUpdateFails {
        return false;
      }
      ZeroedCounter(states, t, now);
      if t in states {
        states := states[t := QueueState(0, now)];
      }
      if fault == CallsUpdateFails {
        return false;
      }
      DeactivateCalls(t);
      return true;
    }

    /** The second write of resetQueue: every active call of type `t` becomes inactive. */
    method DeactivateCalls(t: string)
      requires Valid()
      modifies this
      ensures Valid()
      ensures states == old(states) && clock == old(clock)
      ensures calls == Deactivated(old(calls), t)
      ensures ActiveQueueCalls(calls, t) == []
    {
      DeactivatedKeepsLedgerValid(calls, clock, t);
      NoActiveAfterDeactivation(calls, t);
      calls := Deactivated(calls, t);
    }

    method GetActiveQueueCalls(t: string) returns (r: seq<QueueCall>)
      requires Valid()
      ensures r == ActiveQueueCalls(calls, t)
    {
      r := ActiveQueueCalls(calls, t);
    }

    method GetCurrentQueueNumber(t: string) returns (n: int)
      requires Valid()
      ensures n == CurrentQueueNumber(states, t) && n >= 0
    {
      n := CurrentQueueNumber(states, t);
    }

    /** The ledger is only read; the re-announcement is not part of this model. */
    method RecallLastQueue(loket: int, t: string) returns (r: Option<int>)
      requires Valid()
      ensures r == RecallLast(calls, loket, t)
    {
      r := RecallLast(calls, loket, t);
    }
  }

  // ------------------------------------------------------------------------
  // Sequences of operations
  // ------------------------------------------------------------------------

  /** A fresh queue: two calls from two lokets get 1 and 2, and recall finds 1 for the first loket. */
  method FreshQueueScenario() returns (first: Option<QueueCall>, second: Option<QueueCall>, recalled: Option<int>)
    ensures first.Some? && first.value.queueNumber == 1 && first.value.loketNumber == 1
    ensures second.Some? && second.value.queueNumber == 2 && second.value.loketNumber == 2
    ensures recalled == Some(1)
  {
    var db := new QueueDatabase({"A"}, 0);
    assert "A" in db.states && db.states["A"].currentNumber == 0 && db.calls == [];
    first := db.CallQueue(1, "A", false);
    var c1 := first.value;
    SingleCallLedger(c1, "A", 2);
    second := db.CallQueue(2, "A", false);
    var c2 := second.value;
    RecallFindsOwnCall(c1, c2, "A");
    recalled := db.RecallLastQueue(1, "A");
  }

  /** A ledger of one call has no active call with another number. */
  lemma SingleCallLedger(c: QueueCall, t: string, n: int)
    requires c.queueNumber != n
    ensures !ActiveCallExists([c], t, n)
  {
  }

  /** With one call at each of two lokets, recall at the first finds its own call. */
  lemma RecallFindsOwnCall(c1: QueueCall, c2: QueueCall, t: string)
    requires c1.loketNumber != c2.loketNumber && c1.queueType == Some(t)
    ensures RecallLast([c1, c2], c1.loketNumber, t) == Some(c1.queueNumber)
  {
    var f := OfLoket(c1.loketNumber, t);
    assert [c1, c2][..1] == [c1];
    assert [c1][..0] == [];
    assert Select([c1, c2], f) == [c1];
  }

  /** After a reset nothing of that type is active and the next allocation is 1 again. */
  method ResetScenario(db: QueueDatabase, t: string, now: int) returns (shown: seq<QueueCall>, next: Allocation)
    requires db.Valid() && t in db.states
    modifies db
    ensures shown == []
    ensures next == Allocated(1)
  {
    var ok := db.ResetQueue(t, now, NoResetFault);
    shown := ActiveQueueCalls(db.calls, t);
    next := db.GetNextQueueNumber(t);
  }

  /** A reset whose second write fails leaves call 1 active while the counter is 0:
      the next call allocates 1 again, the guard refuses it, and the number is used up. */
  method PartialResetScenario() returns (beforeReset: Option<QueueCall>, afterReset: Option<QueueCall>, counter: int)
    ensures beforeReset.Some? && beforeReset.value.queueNumber == 1
    ensures afterReset == None
    ensures counter == 1
  {
    var db := new QueueDatabase({"A"}, 0);
    assert "A" in db.states && db.states["A"].currentNumber == 0 && db.calls == [];
    beforeReset := db.CallQueue(1, "A", false);
    var stale := beforeReset.value;
    assert db.calls == [stale];
    var ok := db.ResetQueue("A", 10, CallsUpdateFails);
    assert db.states["A"].currentNumber == 0 && db.calls == [stale];
    assert stale in db.calls && Matches(stale, ActiveWithNumber("A", 1));
    afterReset := db.CallQueue(1, "A", false);
    counter := db.GetCurrentQueueNumber("A");
  }
}
