/** The snowflake id generator of libs/uuid/uuid.go. */
module Snowflake {
  import opened Bits

  const WORKER_BITS: nat := 10
  const NUMBER_BITS: nat := 12
  const WORKER_MAX: int := 1023
  const NUMBER_MAX: int := 4095
  const TIME_SHIFT: nat := WORKER_BITS + NUMBER_BITS
  const WORKER_SHIFT: nat := NUMBER_BITS
  const EPOCH: int := 1652751577000
  const TIME_LIMIT: int := 0x200_0000_0000  // 2^41 milliseconds

  /** The shifted time and worker fields, or-ed together. */
  function Upper(t: int, worker: int): int {
    Or(Wrap64(t * Pow2(TIME_SHIFT)), Wrap64(worker * Pow2(WORKER_SHIFT)))
  }

  /** The id expression: the three fields or-ed together. */
  function MakeId(now: int, worker: int, number: int): int {
    Or(Upper(now - EPOCH, worker), number)
  }

  datatype Fields = Fields(time: int, worker: int, number: int)

  /** Go's division, which truncates toward zero. */
  function TruncDiv(a: int, d: int): int
    requires d > 0
  {
    if a >= 0 then a / d else 0 - (0 - a) / d
  }

  /** `Unmarshal`; an arithmetic shift to the right is a floor division. */
  function Unmarshal(id: int): Fields {
    Fields(TruncDiv(id / Pow2(TIME_SHIFT) + EPOCH, 1000),
           And(id, Pow2(TIME_SHIFT) - 1) / Pow2(WORKER_SHIFT),
           And(id, Pow2(WORKER_SHIFT) - 1))
  }

  predicate InRange(now: int) { 0 <= now - EPOCH < TIME_LIMIT }

  predicate IsWorker(id: int) { 0 <= id <= WORKER_MAX }

  lemma Shifts()
    ensures Pow2(TIME_SHIFT) == 0x40_0000 && Pow2(WORKER_SHIFT) == 0x1000 && Pow2(10) == 1024
  {
    assert Pow2(10) == 1024;
    assert Pow2(12) == 4 * Pow2(10);
    assert Pow2(14) == 4 * Pow2(12);
    assert Pow2(16) == 4 * Pow2(14);
    assert Pow2(18) == 4 * Pow2(16);
    assert Pow2(20) == 4 * Pow2(18);
  }

  /** A sum of fields that do not overlap. */
  function Compose(now: int, field: int, number: int): int {
    ((now - EPOCH) * 1024 + field) * 4096 + number
  }

  /** The time and worker fields side by side. */
  lemma UpperFields(t: int, worker: int)
    requires 0 <= t < TIME_LIMIT && IsWorker(worker)
    ensures Upper(t, worker) == (t * 1024 + worker) * 4096
  {
    Shifts();
    OrDisjoint(t, 10, worker);
    OrScaled(t * 1024, worker, 12);
    assert t * 0x40_0000 == t * 1024 * 4096;
    assert Wrap64(t * 0x40_0000) == t * 0x40_0000 && Wrap64(worker * 4096) == worker * 4096;
  }

  /** The sequence number below them; a number of 4096 sets the lowest bit of what is above it. */
  lemma LowerField(x: int, number: int)
    requires 0 <= number <= NUMBER_MAX + 1
    ensures Or(x * 4096, number) == if number <= NUMBER_MAX then x * 4096 + number else (x + 1 - x % 2) * 4096
  {
    Shifts();
    if number <= NUMBER_MAX {
      OrDisjoint(x, 12, number);
    } else {
      OrScaled(x, 1, 12);
      OrOne(x);
    }
  }

  /** What an id holds: its own fields or, when the sequence number has run over to 4096, number 0
      and a worker field with its lowest bit set. */
  lemma IdFields(now: int, worker: int, number: int)
    requires InRange(now) && IsWorker(worker) && 0 <= number <= NUMBER_MAX + 1
    ensures MakeId(now, worker, number) ==
            if number <= NUMBER_MAX then Compose(now, worker, number)
            else Compose(now, worker + 1 - worker % 2, 0)
  {
    var x := (now - EPOCH) * 1024 + worker;
    UpperFields(now - EPOCH, worker);
    LowerField(x, number);
    SameParity(now - EPOCH, worker);
  }

  lemma SameParity(t: int, worker: int)
    ensures (t * 1024 + worker) % 2 == worker % 2
  {}

  function Ms(id: int): int { id / 0x40_0000 + EPOCH }
  function Field(id: int): int { id / 4096 % 1024 }
  function Number(id: int): int { id % 4096 }

  /** The fields can be read off a composed id, and it fits a non-negative int64. */
  lemma ComposeInverse(now: int, field: int, number: int)
    requires InRange(now) && 0 <= field <= WORKER_MAX && 0 <= number <= NUMBER_MAX
    ensures var id := Compose(now, field, number);
            && 0 <= id < INT64_LIMIT
            && Ms(id) == now && Field(id) == field && Number(id) == number
  {
    var t := now - EPOCH;
    var id := Compose(now, field, number);
    ModUnique(id, 4096, t * 1024 + field, number);
    ModUnique(id / 4096, 1024, t, field);
    assert id == 0x40_0000 * t + (field * 4096 + number);
    ModUnique(id, 0x40_0000, t, field * 4096 + number);
  }

  /** The bit-field round trip: the or of the shifted fields is their sum, it fits a non-negative
      int64, and `Unmarshal` recovers worker, number and the time in whole seconds. */
  lemma UnmarshalRoundTrip(now: int, worker: int, number: int)
    requires InRange(now) && IsWorker(worker) && 0 <= number <= NUMBER_MAX
    ensures MakeId(now, worker, number) == (now - 1652751577000) * 0x40_0000 + worker * 0x1000 + number
    ensures 0 <= MakeId(now, worker, number) < INT64_LIMIT
    ensures Unmarshal(MakeId(now, worker, number)) == Fields(now / 1000, worker, number)
  {
    Shifts();
    IdFields(now, worker, number);
    ComposeInverse(now, worker, number);
    var id := MakeId(now, worker, number);
    AndMask(id, 12);
    AndMask(id, 22);
    assert id == 0x40_0000 * (now - EPOCH) + (worker * 4096 + number);
    ModUnique(id, 0x40_0000, now - EPOCH, worker * 4096 + number);
    ModUnique(worker * 4096 + number, 4096, worker, number);
  }

  // ---- the generator ----

  datatype Worker = Worker(timestamp: int, id: int, number: int)

  /** The clock as one call of Get sees it: its first reading, and the first later one beyond the
      worker's timestamp, which only the overflow branch waits for. */
  datatype Reading = Reading(now: int, later: int)

  predicate Overflows(w: Worker, r: Reading) {
    w.timestamp == r.now && w.number + 1 > NUMBER_MAX
  }

  /** The reading that goes into the id. */
  function Stamp(w: Worker, r: Reading): int {
    if Overflows(w, r) then r.later else r.now
  }

  /** The state after a call.  The overflow branch resets neither field. */
  function After(w: Worker, r: Reading): Worker {
    if w.timestamp == r.now then w.(number := w.number + 1) else w.(timestamp := r.now, number := 0)
  }

  function Get(w: Worker, r: Reading): int {
    MakeId(Stamp(w, r), w.id, After(w, r).number)
  }

  /** The first reading beyond `t`. */
  function FirstBeyond(clock: seq<int>, t: int): int
    requires exists i :: 0 <= i < |clock| && clock[i] > t
  {
    if clock[0] > t then clock[0] else FirstBeyond(clock[1..], t)
  }

  /** The generator as the source has it; the mutex makes its calls follow one another. */
  class UuidWorker {
    var timestamp: int
    var workerID: int
    var number: int

    function State(): Worker
      reads this
    {
      Worker(timestamp, workerID, number)
    }

    constructor (id: int)
      requires IsWorker(id)
      ensures State() == Worker(0, id, 0)
    {
      timestamp, workerID, number := 0, id, 0;
    }

    /** `clock` holds the successive readings of the clock; the call waits for one beyond the
        timestamp when it overflows, so there has to be one. */
    method GetId(clock: seq<int>) returns (id: int)
      requires clock != []
      requires Overflows(State(), Reading(clock[0], 0)) ==> exists i :: 0 <= i < |clock| && clock[i] > timestamp
      modifies this
      ensures var r := Reading(clock[0], if Overflows(old(State()), Reading(clock[0], 0))
                                         then FirstBeyond(clock, old(timestamp)) else 0);
              State() == After(old(State()), r) && id == Get(old(State()), r)
    {
      var now := clock[0];
      if timestamp == now {
        number := number + 1;
        if number > NUMBER_MAX {
          var rest := clock;
          while now <= timestamp
            invariant rest != [] && now == rest[0]
            invariant exists i :: 0 <= i < |rest| && rest[i] > timestamp
            invariant FirstBeyond(rest, timestamp) == FirstBeyond(clock, timestamp)
            decreases |rest|
          {
            var i :| 0 <= i < |rest| && rest[i] > timestamp;
            assert rest[1..][i - 1] == rest[i];
            rest := rest[1..];
            now := rest[0];
          }
        }
      } else {
        number := 0;
        timestamp := now;
      }
      id := MakeId(now, workerID, number);
    }
  }

  /** `NewUuidWorker`: null stands for the error on a worker id out of range. */
  method NewUuidWorker(id: int) returns (w: UuidWorker?)
    ensures w == null <==> id < 0 || id > WORKER_MAX
    ensures w != null ==> fresh(w) && w.State() == Worker(0, id, 0)
  {
    if id < 0 || id > WORKER_MAX {
      return null;
    }
    w := new UuidWorker(id);
  }

  // ---- whole runs ----

  /** The worker after a sequence of calls. */
  function Final(w: Worker, rs: seq<Reading>): Worker {
    if rs == [] then w
    else After(Final(w, rs[..|rs| - 1]), rs[|rs| - 1])
  }

  /** The ids that a sequence of calls returns. */
  function Ids(w: Worker, rs: seq<Reading>): (ids: seq<int>)
    ensures |ids| == |rs|
  {
    if rs == [] then []
    else Ids(w, rs[..|rs| - 1]) + [Get(Final(w, rs[..|rs| - 1]), rs[|rs| - 1])]
  }

  /** The last reading that a sequence of calls took. */
  function LastStamp(w: Worker, rs: seq<Reading>): int {
    if rs == [] then w.timestamp
    else Stamp(Final(w, rs[..|rs| - 1]), rs[|rs| - 1])
  }

  /** The clock is in range and never goes back. */
  ghost predicate Clock(w: Worker, rs: seq<Reading>) {
    rs == [] ||
    var rs', r := rs[..|rs| - 1], rs[|rs| - 1];
    && Clock(w, rs')
    && InRange(r.now) && LastStamp(w, rs') <= r.now
    && (Overflows(Final(w, rs'), r) ==> InRange(r.later) && r.later > r.now)
  }

  predicate OverflowsAt(w: Worker, rs: seq<Reading>, k: nat)
    requires k < |rs|
  {
    Overflows(Final(w, rs[..k]), rs[k])
  }

  function Odd(worker: int): int { worker + 1 - worker % 2 }

  /** The worker field and the number that one call puts into its id. */
  function FieldIn(w: Worker, r: Reading): int { if Overflows(w, r) then Odd(w.id) else w.id }
  function NumberIn(w: Worker, r: Reading): int { if Overflows(w, r) then 0 else After(w, r).number }

  lemma GetComposes(w: Worker, r: Reading)
    requires IsWorker(w.id) && 0 <= w.number <= NUMBER_MAX + 1 && InRange(Stamp(w, r))
    requires w.number == NUMBER_MAX + 1 ==> w.timestamp != r.now
    ensures Get(w, r) == Compose(Stamp(w, r), FieldIn(w, r), NumberIn(w, r))
    ensures IsWorker(FieldIn(w, r)) && 0 <= NumberIn(w, r) <= NUMBER_MAX
  {
    IdFields(Stamp(w, r), w.id, After(w, r).number);
  }

  /** The fields of the id that one call returns. */
  lemma GetFields(w: Worker, r: Reading)
    requires IsWorker(w.id) && 0 <= w.number <= NUMBER_MAX + 1 && InRange(Stamp(w, r))
    requires w.number == NUMBER_MAX + 1 ==> w.timestamp != r.now
    ensures var id := Get(w, r);
            && Ms(id) == Stamp(w, r) && Field(id) == FieldIn(w, r) && Number(id) == NumberIn(w, r)
            && id == Compose(Stamp(w, r), Field(id), Number(id))
  {
    GetComposes(w, r);
    ComposeInverse(Stamp(w, r), FieldIn(w, r), NumberIn(w, r));
  }

  /** An id issued by a worker that is now at `w`: from an earlier millisecond, or from the current
      one with a number already used, or the one that an overflow has just put ahead of it. */
  predicate Issued(w: Worker, last: int, id: int) {
    || Ms(id) < w.timestamp
    || (Ms(id) == w.timestamp && Field(id) == w.id && Number(id) <= w.number <= NUMBER_MAX)
    || (Ms(id) == w.timestamp && Field(id) == w.id && w.number == NUMBER_MAX + 1)
    || (Ms(id) == w.timestamp && Field(id) == Odd(w.id) && Number(id) == 0)
    || (Ms(id) == last && w.number == NUMBER_MAX + 1 && Field(id) == Odd(w.id) && Number(id) == 0)
  }

  ghost predicate History(w: Worker, rs: seq<Reading>) {
    var w' := Final(w, rs);
    && w'.id == w.id && 0 <= w'.number <= NUMBER_MAX + 1
    && (w'.number <= NUMBER_MAX ==> LastStamp(w, rs) == w'.timestamp)
    && (w'.number == NUMBER_MAX + 1 ==>
          rs != [] && LastStamp(w, rs) > w'.timestamp && OverflowsAt(w, rs, |rs| - 1))
    && (rs != [] && OverflowsAt(w, rs, |rs| - 1) ==> w'.number == NUMBER_MAX + 1)
    && forall i | 0 <= i < |rs| :: Issued(w', LastStamp(w, rs), Ids(w, rs)[i])
  }

  lemma {:induction false} HistoryRun(w: Worker, rs: seq<Reading>)
    requires w == Worker(0, w.id, 0) && IsWorker(w.id) && Clock(w, rs)
    ensures History(w, rs)
    decreases |rs|
  {
    if rs != [] {
      var n := |rs| - 1;
      HistoryRun(w, rs[..n]);
      GetFields(Final(w, rs[..n]), rs[n]);
      forall i | 0 <= i < |rs| ensures Issued(Final(w, rs), LastStamp(w, rs), Ids(w, rs)[i]) {
        if i < n { assert Issued(Final(w, rs[..n]), LastStamp(w, rs[..n]), Ids(w, rs[..n])[i]); }
      }
    }
  }

  /** Call k follows, in the very millisecond it had waited for, a call that overflowed. */
  predicate Repeats(w: Worker, rs: seq<Reading>, k: nat)
    requires k < |rs|
  {
    k > 0 && w.id % 2 == 1 && OverflowsAt(w, rs, k - 1) && rs[k].now == rs[k - 1].later
  }

  predicate Distinct(ids: seq<int>) {
    forall i, j | 0 <= i < j < |ids| :: ids[i] != ids[j]
  }

  ghost predicate SomeRepeat(w: Worker, rs: seq<Reading>) {
    exists k: nat :: k < |rs| && Repeats(w, rs, k)
  }

  lemma RepeatsOfRun(w: Worker, rs: seq<Reading>)
    requires rs != []
    ensures SomeRepeat(w, rs) <==> SomeRepeat(w, rs[..|rs| - 1]) || Repeats(w, rs, |rs| - 1)
  {
    var rs' := rs[..|rs| - 1];
    forall k: nat | k < |rs'| ensures Repeats(w, rs, k) <==> Repeats(w, rs', k) {
      if k > 0 { assert rs[..k - 1] == rs'[..k - 1]; }
    }
  }

  lemma DistinctAppend(ids: seq<int>, id: int)
    ensures Distinct(ids + [id]) <==> Distinct(ids) && id !in ids
  {
    var all := ids + [id];
    if Distinct(all) {
      forall i, j | 0 <= i < j < |ids| ensures ids[i] != ids[j] { assert all[i] != all[j]; }
      forall i | 0 <= i < |ids| ensures ids[i] != id { assert all[i] != all[|ids|]; }
    }
  }

  /** After an overflow, an odd worker's next call in the same millisecond repeats the id. */
  lemma RepeatIsDuplicate(w: Worker, rs: seq<Reading>)
    requires w == Worker(0, w.id, 0) && IsWorker(w.id) && Clock(w, rs) && rs != [] && Repeats(w, rs, |rs| - 1)
    ensures |rs| >= 2 && Ids(w, rs)[|rs| - 2] == Ids(w, rs)[|rs| - 1]
  {
    var n := |rs| - 1;
    var rs' := rs[..n];
    assert rs'[..n - 1] == rs[..n - 1];
    HistoryRun(w, rs'[..n - 1]);
    HistoryRun(w, rs');
    GetFields(Final(w, rs'[..n - 1]), rs'[n - 1]);
    GetFields(Final(w, rs'), rs[n]);
  }

  lemma NewIdIsNew(w: Worker, rs: seq<Reading>)
    requires w == Worker(0, w.id, 0) && IsWorker(w.id) && Clock(w, rs) && rs != [] && !Repeats(w, rs, |rs| - 1)
    ensures Ids(w, rs)[|rs| - 1] !in Ids(w, rs[..|rs| - 1])
  {
    var n := |rs| - 1;
    var rs' := rs[..n];
    HistoryRun(w, rs');
    GetFields(Final(w, rs'), rs[n]);
    if n > 0 { assert rs'[..n - 1] == rs[..n - 1]; }
    forall i | 0 <= i < n ensures Ids(w, rs')[i] != Ids(w, rs)[n] {
      assert Issued(Final(w, rs'), LastStamp(w, rs'), Ids(w, rs')[i]);
    }
  }

  lemma LastIdOfRun(w: Worker, rs: seq<Reading>)
    requires w == Worker(0, w.id, 0) && IsWorker(w.id) && Clock(w, rs) && rs != []
    ensures Distinct(Ids(w, rs)) <==> Distinct(Ids(w, rs[..|rs| - 1])) && !Repeats(w, rs, |rs| - 1)
  {
    var n := |rs| - 1;
    var before, id := Ids(w, rs[..n]), Ids(w, rs)[n];
    assert Ids(w, rs) == before + [id];
    DistinctAppend(before, id);
    if Repeats(w, rs, n) {
      RepeatIsDuplicate(w, rs);
      assert before[n - 1] == Ids(w, rs)[n - 1];
    } else {
      NewIdIsNew(w, rs);
    }
  }

  /** Exactly when one worker's ids are all different, for a clock that never goes back: if and
      only if no call of an odd worker comes in the millisecond an overflow has waited for. */
  lemma {:induction false} DistinctUnlessRepeated(w: Worker, rs: seq<Reading>)
    requires w == Worker(0, w.id, 0) && IsWorker(w.id) && Clock(w, rs)
    ensures Distinct(Ids(w, rs)) <==> !SomeRepeat(w, rs)
    decreases |rs|
  {
    if rs != [] {
      DistinctUnlessRepeated(w, rs[..|rs| - 1]);
      RepeatsOfRun(w, rs);
      LastIdOfRun(w, rs);
    }
  }

  ghost predicate NoOverflow(w: Worker, rs: seq<Reading>) {
    forall k: nat | k < |rs| :: !OverflowsAt(w, rs, k)
  }

  lemma PrefixNoOverflow(w: Worker, rs: seq<Reading>)
    requires rs != [] && NoOverflow(w, rs)
    ensures NoOverflow(w, rs[..|rs| - 1])
  {
    var rs' := rs[..|rs| - 1];
    forall k: nat | k < |rs'| ensures !OverflowsAt(w, rs', k) {
      assert rs'[..k] == rs[..k] && !OverflowsAt(w, rs, k);
    }
  }

  lemma LastIsLargest(w: Worker, rs: seq<Reading>)
    requires w == Worker(0, w.id, 0) && IsWorker(w.id) && Clock(w, rs) && |rs| > 1
    requires !OverflowsAt(w, rs, |rs| - 1) && !OverflowsAt(w, rs[..|rs| - 1], |rs| - 2)
    ensures Ids(w, rs)[|rs| - 2] < Ids(w, rs)[|rs| - 1]
  {
    var n := |rs| - 1;
    var rs' := rs[..n];
    HistoryRun(w, rs'[..n - 1]);
    HistoryRun(w, rs');
    GetFields(Final(w, rs'[..n - 1]), rs'[n - 1]);
    GetFields(Final(w, rs'), rs[n]);
  }

  /** Without an overflow one worker's ids strictly increase. */
  lemma {:induction false} StrictlyIncreasing(w: Worker, rs: seq<Reading>)
    requires w == Worker(0, w.id, 0) && IsWorker(w.id) && Clock(w, rs) && NoOverflow(w, rs)
    ensures forall i, j | 0 <= i < j < |rs| :: Ids(w, rs)[i] < Ids(w, rs)[j]
    decreases |rs|
  {
    if |rs| > 1 {
      var n := |rs| - 1;
      PrefixNoOverflow(w, rs);
      StrictlyIncreasing(w, rs[..n]);
      assert !OverflowsAt(w, rs, n) && !OverflowsAt(w, rs[..n], n - 1);
      LastIsLargest(w, rs);
      assert Ids(w, rs)[..n] == Ids(w, rs[..n]);
    }
  }

  /** The reading and the sequence number that go into the id of call k. */
  function StampAt(w: Worker, rs: seq<Reading>, k: nat): int
    requires k < |rs|
  {
    Stamp(Final(w, rs[..k]), rs[k])
  }

  function NumberAt(w: Worker, rs: seq<Reading>, k: nat): int
    requires k < |rs|
  {
    After(Final(w, rs[..k]), rs[k]).number
  }

  /** The fields of the id of call k: the call's reading, the worker and its number, or, when that
      very call overflowed, the odd worker and 0. */
  ghost predicate HasFields(w: Worker, rs: seq<Reading>, k: nat, id: int)
    requires k < |rs|
  {
    && Ms(id) == StampAt(w, rs, k) && InRange(StampAt(w, rs, k))
    && Field(id) == (if OverflowsAt(w, rs, k) then Odd(w.id) else w.id)
    && Number(id) == (if OverflowsAt(w, rs, k) then 0 else NumberAt(w, rs, k))
    && id == Compose(Ms(id), Field(id), Number(id))
  }

  lemma LastFields(w: Worker, rs: seq<Reading>)
    requires w == Worker(0, w.id, 0) && IsWorker(w.id) && Clock(w, rs) && rs != []
    ensures HasFields(w, rs, |rs| - 1, Ids(w, rs)[|rs| - 1])
  {
    var n := |rs| - 1;
    HistoryRun(w, rs[..n]);
    GetFields(Final(w, rs[..n]), rs[n]);
  }

  /** Every id of a run has the fields of its call. */
  lemma {:induction false} FieldsOfIssued(w: Worker, rs: seq<Reading>, k: nat)
    requires w == Worker(0, w.id, 0) && IsWorker(w.id) && Clock(w, rs) && k < |rs|
    ensures HasFields(w, rs, k, Ids(w, rs)[k])
    decreases |rs|
  {
    var n := |rs| - 1;
    if k < n {
      FieldsOfIssued(w, rs[..n], k);
      assert rs[..n][..k] == rs[..k];
      assert Ids(w, rs)[k] == Ids(w, rs[..n])[k];
    } else {
      LastFields(w, rs);
    }
  }

  /** A carry makes the worker fields of two workers equal only from an even one to its successor. */
  lemma CarryMeets(a: int, carried: bool, b: int, carried': bool)
    requires a < b
    ensures (if carried then Odd(a) else a) == (if carried' then Odd(b) else b) <==>
            carried && a % 2 == 0 && b == a + 1
  {}

  /** Exactly when the ids of two workers coincide: if and only if the workers are an even one and
      its odd successor, the even one's call overflowed, and the other call is of the same
      millisecond and either its first one or an overflow as well. */
  lemma WorkersCollideIff(a: Worker, ra: seq<Reading>, i: nat, b: Worker, rb: seq<Reading>, j: nat)
    requires a == Worker(0, a.id, 0) && IsWorker(a.id) && Clock(a, ra) && i < |ra|
    requires b == Worker(0, b.id, 0) && IsWorker(b.id) && Clock(b, rb) && j < |rb|
    requires a.id < b.id
    ensures Ids(a, ra)[i] == Ids(b, rb)[j] <==>
            && a.id % 2 == 0 && b.id == a.id + 1
            && OverflowsAt(a, ra, i) && StampAt(a, ra, i) == StampAt(b, rb, j)
            && (OverflowsAt(b, rb, j) || NumberAt(b, rb, j) == 0)
  {
    FieldsOfIssued(a, ra, i);
    FieldsOfIssued(b, rb, j);
    CarryMeets(a.id, OverflowsAt(a, ra, i), b.id, OverflowsAt(b, rb, j));
  }

  /** What an overflowing call returns: the first id, in the millisecond it has waited for, of the
      worker itself when that is odd, and of its successor when it is even. */
  lemma OverflowId(w: Worker, rs: seq<Reading>, k: nat, v: Worker, later: int)
    requires w == Worker(0, w.id, 0) && IsWorker(w.id) && Clock(w, rs) && k < |rs| && OverflowsAt(w, rs, k)
    requires v.id == Odd(w.id) && v.timestamp != rs[k].later
    ensures Ids(w, rs)[k] == Get(v, Reading(rs[k].later, later))
  {
    FieldsOfIssued(w, rs, k);
    IdFields(rs[k].later, v.id, 0);
  }

  /** `n` calls within one millisecond, each of which would find the next one if it waited. */
  function Busy(ms: int, n: nat): seq<Reading> {
    seq(n, i => Reading(ms, ms + 1))
  }

  lemma {:induction false} BusyRun(w: Worker, ms: int, n: nat)
    requires w == Worker(0, w.id, 0) && InRange(ms) && InRange(ms + 1) && 0 < n <= NUMBER_MAX + 2
    ensures Clock(w, Busy(ms, n)) && Final(w, Busy(ms, n)) == Worker(ms, w.id, n - 1)
    ensures LastStamp(w, Busy(ms, n)) == if n <= NUMBER_MAX + 1 then ms else ms + 1
    ensures OverflowsAt(w, Busy(ms, n), n - 1) <==> n == NUMBER_MAX + 2
  {
    assert Busy(ms, n)[..n - 1] == Busy(ms, n - 1);
    assert Busy(ms, 0) == [];
    if n > 1 { BusyRun(w, ms, n - 1); }
    var rs := Busy(ms, n);
    assert rs[n - 1] == Reading(ms, ms + 1);
    assert LastStamp(w, rs[..n - 1]) <= ms;
    assert Clock(w, rs);
  }

  /** The duplicate is reachable: 4097 calls of an odd worker in one millisecond and one more call
      in the next one return the same id twice. */
  lemma BusyMillisecondRepeats(w: Worker, ms: int)
    requires w == Worker(0, w.id, 0) && IsWorker(w.id) && w.id % 2 == 1 && InRange(ms) && InRange(ms + 1)
    ensures var rs := Busy(ms, NUMBER_MAX + 2) + [Reading(ms + 1, ms + 2)];
            Clock(w, rs) && Ids(w, rs)[|rs| - 2] == Ids(w, rs)[|rs| - 1]
  {
    var busy := Busy(ms, NUMBER_MAX + 2);
    var rs := busy + [Reading(ms + 1, ms + 2)];
    BusyRun(w, ms, NUMBER_MAX + 2);
    assert rs[..|rs| - 1] == busy;
    assert rs[..|busy| - 1] == busy[..|busy| - 1];
    RepeatIsDuplicate(w, rs);
  }

  /** Two workers do collide: 4097 calls of an even worker in one millisecond and a single call of
      its successor in the next one return the same id. */
  lemma BusyNeighboursCollide(a: Worker, b: Worker, ms: int)
    requires a == Worker(0, a.id, 0) && IsWorker(a.id) && a.id % 2 == 0 && b == Worker(0, a.id + 1, 0)
    requires InRange(ms) && InRange(ms + 1) && InRange(ms + 2)
    ensures var ra, rb := Busy(ms, NUMBER_MAX + 2), Busy(ms + 1, 1);
            Clock(a, ra) && Clock(b, rb) && Ids(a, ra)[NUMBER_MAX + 1] == Ids(b, rb)[0]
  {
    var ra, rb := Busy(ms, NUMBER_MAX + 2), Busy(ms + 1, 1);
    BusyRun(a, ms, NUMBER_MAX + 2);
    BusyRun(b, ms + 1, 1);
    assert rb[..0] == [] && rb[0] == Reading(ms + 1, ms + 2) && ra[NUMBER_MAX + 1] == Reading(ms, ms + 1);
    WorkersCollideIff(a, ra, NUMBER_MAX + 1, b, rb, 0);
  }
}
