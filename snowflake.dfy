/** Model of the Snowflake generator of pkg/idgen/snowflake.go: the 64-bit identifier layout, validated
    construction, the per-generator clock/sequence state machine, batches and the field decoders.

    Wall-clock reads are inputs: one Generate call is given a `Tick`, the readings it would take. */
module Snowflake {
  import opened Words
  import opened Wrappers

  // Field widths, most significant first after the always-zero sign bit.
  const TimestampBits := 41
  const ProcessIDBits := 5
  const WorkerIDBits := 5
  const SequenceBits := 12

  // Largest value of each small field: -1 ^ (-1 << bits).
  const MaxProcessID := 31
  const MaxWorkerID := 31
  const MaxSequence := 4095

  // 1 << shift for each field: the sequence sits at bit 0, the worker ID at bit 12,
  // the process ID at bit 17 and the timestamp delta at bit 22.
  const WorkerIDUnit := 0x1000
  const ProcessIDUnit := 0x2_0000
  const TimestampUnit := 0x40_0000

  /** 1 << 41: timestamp deltas in [-TimestampSpan, TimestampSpan) survive the shift into bits 22..63. */
  const TimestampSpan := 0x200_0000_0000

  /** 2025-01-01T00:00:00Z in Unix milliseconds. */
  const DefaultEpoch: int64 := 1735689600000

  datatype SnowflakeError = InvalidProcessID | InvalidWorkerID

  /** The range checks of the constructor, process ID first. */
  function CheckIDs(processID: int64, workerID: int64): (r: Option<SnowflakeError>)
    ensures r == Some(InvalidProcessID) <==> !(0 <= processID <= MaxProcessID)
    ensures r == Some(InvalidWorkerID) <==> 0 <= processID <= MaxProcessID && !(0 <= workerID <= MaxWorkerID)
    ensures r == None <==> 0 <= processID <= MaxProcessID && 0 <= workerID <= MaxWorkerID
  {
    if processID < 0 || processID > MaxProcessID then Some(InvalidProcessID)
    else if workerID < 0 || workerID > MaxWorkerID then Some(InvalidWorkerID)
    else None
  }

  /** The signed value of bits 22..63 once a delta `m` has been shifted left by 22 in an int64. */
  function Wrap42(m: int): int
  {
    (m + TimestampSpan) % (2 * TimestampSpan) - TimestampSpan
  }

  /** The identifier Generate builds from its state. `x << k` on int64 keeps the low 64 bits (Wrap64);
      the three `|` join bit ranges that cannot overlap once the fields are in range (PackLayout shows
      that the shifted delta is a multiple of 1 << 22), so they are written as sums. */
  function Pack(epoch: int64, processID: int64, workerID: int64, timestamp: int64, sequence: int64): int64
    requires 0 <= processID <= MaxProcessID && 0 <= workerID <= MaxWorkerID && 0 <= sequence <= MaxSequence
  {
    Wrap64(Wrap64(Wrap64(timestamp - epoch) * TimestampUnit) + processID * ProcessIDUnit + workerID * WorkerIDUnit + sequence)
  }

  /** The shift keeps exactly the low 42 bits of the delta, as a signed number. */
  lemma {:induction false} ShiftedDelta(m: int, low: int)
    requires 0 <= low < TimestampUnit
    ensures Wrap64(m * TimestampUnit + low) == Wrap42(m) * TimestampUnit + low
  {
    var a := m + TimestampSpan;
    var q, r := a / (2 * TimestampSpan), a % (2 * TimestampSpan);
    assert m * TimestampUnit + low + 0x8000_0000_0000_0000 == q * WordSpan + (r * TimestampUnit + low);
    WordModUnique(m * TimestampUnit + low + 0x8000_0000_0000_0000, q, r * TimestampUnit + low);
  }

  /** Every field of a packed identifier sits in its own bit range. */
  lemma {:induction false} PackLayout(epoch: int64, processID: int64, workerID: int64, timestamp: int64, sequence: int64)
    requires 0 <= processID <= MaxProcessID && 0 <= workerID <= MaxWorkerID && 0 <= sequence <= MaxSequence
    ensures Pack(epoch, processID, workerID, timestamp, sequence)
         == Wrap42(Wrap64(timestamp - epoch)) * TimestampUnit + processID * ProcessIDUnit + workerID * WorkerIDUnit + sequence
  {
    ShiftedDelta(Wrap64(timestamp - epoch), 0);
  }

  /** The clock state a generator mutates: the last millisecond it stamped and the sequence within it. */
  datatype GenState = GenState(lastTimestamp: int64, sequence: int64)

  /** The clock readings one Generate call takes: the first reading, the reading taken after sleeping
      off a backwards clock, and the readings the busy-wait for the next millisecond sees in turn. */
  datatype Tick = Tick(now: int64, retry: int64, polls: seq<int64>)

  /** The millisecond Generate works with after the backwards-clock check (read again only once). */
  function Reading(st: GenState, t: Tick): int64
  {
    if t.now < st.lastTimestamp then t.retry else t.now
  }

  /** The call falls in the last millisecond and the sequence wraps: it has to wait for the next one. */
  predicate Exhausts(st: GenState, t: Tick)
  {
    Reading(st, t) == st.lastTimestamp && (st.sequence + 1) % (MaxSequence + 1) == 0
  }

  /** Some reading of the busy-wait is past `last`, so the wait ends. */
  predicate Advances(polls: seq<int64>, last: int64)
  {
    exists k :: 0 <= k < |polls| && polls[k] > last
  }

  /** The call returns: when it has to wait, the clock gets past the last millisecond. */
  predicate Ready(st: GenState, t: Tick)
  {
    Exhausts(st, t) ==> Advances(t.polls, st.lastTimestamp)
  }

  /** The reading with which the busy-wait ends: the first one past `last`. */
  function FirstAfter(polls: seq<int64>, last: int64): (r: int64)
    requires Advances(polls, last)
    ensures r > last
    ensures exists k :: 0 <= k < |polls| && polls[k] == r && forall j :: 0 <= j < k ==> polls[j] <= last
  {
    if polls[0] > last then polls[0]
    else
      assert Advances(polls[1..], last) by {
        var k :| 0 <= k < |polls| && polls[k] > last;
        assert polls[1..][k - 1] == polls[k];
      }
      var r := FirstAfter(polls[1..], last);
      var k :| 0 <= k < |polls[1..]| && polls[1..][k] == r && forall j :: 0 <= j < k ==> polls[1..][j] <= last;
      assert polls[k + 1] == r && forall j :: 0 <= j < k + 1 ==> polls[j] <= last by {
        forall j | 0 <= j < k + 1 ensures polls[j] <= last {
          if j > 0 { assert polls[j] == polls[1..][j - 1]; }
        }
      }
      r
  }

  /** One Generate call on the clock state. */
  function Step(st: GenState, t: Tick): (r: GenState)
    requires Ready(st, t)
    ensures 0 <= r.sequence <= MaxSequence
  {
    var timestamp := Reading(st, t);
    if timestamp == st.lastTimestamp then
      var sequence := (st.sequence + 1) % (MaxSequence + 1);
      if sequence == 0 then GenState(FirstAfter(t.polls, st.lastTimestamp), 0)
      else GenState(timestamp, sequence)
    else GenState(timestamp, 0)
  }

  /** Strict lexicographic order on clock states. */
  predicate Before(a: GenState, b: GenState)
  {
    a.lastTimestamp < b.lastTimestamp || (a.lastTimestamp == b.lastTimestamp && a.sequence < b.sequence)
  }

  /** The assumption monotonicity rests on: the clock is not behind the last millisecond at the one
      reading Generate takes after sleeping off a backwards clock. */
  predicate CaughtUp(st: GenState, t: Tick)
  {
    t.now >= st.lastTimestamp || t.retry >= st.lastTimestamp
  }

  /** The millisecond a call adopts is one of the clock readings it took. */
  lemma StepTimestampIsReading(st: GenState, t: Tick)
    requires Ready(st, t)
    ensures var ts := Step(st, t).lastTimestamp; ts == t.now || ts == t.retry || ts in t.polls
  {
  }

  /** In a new millisecond the sequence restarts at 0; in the same one it counts on modulo 4096, and when it
      wraps the call moves on to a strictly later millisecond. */
  lemma {:induction false} StepSequence(st: GenState, t: Tick)
    requires Ready(st, t)
    ensures Reading(st, t) != st.lastTimestamp ==> Step(st, t) == GenState(Reading(st, t), 0)
    ensures Reading(st, t) == st.lastTimestamp && !Exhausts(st, t) ==>
              Step(st, t) == GenState(st.lastTimestamp, (st.sequence + 1) % (MaxSequence + 1))
    ensures Exhausts(st, t) ==> Step(st, t).sequence == 0 && Step(st, t).lastTimestamp > st.lastTimestamp
  {
  }

  /** Under the clock assumption, every call moves the state strictly forward. */
  lemma {:induction false} StepIncreases(st: GenState, t: Tick)
    requires Ready(st, t) && CaughtUp(st, t) && 0 <= st.sequence <= MaxSequence
    ensures Before(st, Step(st, t))
  {
    StepSequence(st, t);
  }

  /** Without the assumption the state can move backwards: the retry after the sleep is trusted unchecked. */
  lemma RegressedRetryMovesBack()
    ensures var st := GenState(1000, 7);
            var t := Tick(900, 950, []);
            Ready(st, t) && !CaughtUp(st, t) && Step(st, t) == GenState(950, 0) && Before(Step(st, t), st)
  {
  }

  /** The state after a sequence of calls. */
  function Run(st: GenState, ticks: seq<Tick>): GenState
    requires ReadyAll(st, ticks)
    decreases |ticks|, 1
  {
    if ticks == [] then st else Step(Run(st, ticks[..|ticks| - 1]), ticks[|ticks| - 1])
  }

  /** Every call of the sequence returns. */
  predicate ReadyAll(st: GenState, ticks: seq<Tick>)
    decreases |ticks|, 0
  {
    ticks == [] ||
    (ReadyAll(st, ticks[..|ticks| - 1]) && Ready(Run(st, ticks[..|ticks| - 1]), ticks[|ticks| - 1]))
  }

  /** The clock assumption holds at every call of the sequence. */
  predicate CaughtUpAll(st: GenState, ticks: seq<Tick>)
    requires ReadyAll(st, ticks)
    decreases |ticks|
  {
    ticks == [] ||
    (CaughtUpAll(st, ticks[..|ticks| - 1]) && CaughtUp(Run(st, ticks[..|ticks| - 1]), ticks[|ticks| - 1]))
  }

  /** A timestamp whose delta to the epoch fits the 41-bit field (the epoch's ~69-year window). */
  predicate InWindow(epoch: int64, timestamp: int64)
  {
    -TimestampSpan <= timestamp - epoch < TimestampSpan
  }

  /** Every reading a call could adopt lies in the window. */
  predicate TickInWindow(epoch: int64, t: Tick)
  {
    InWindow(epoch, t.now) && InWindow(epoch, t.retry) && forall k :: 0 <= k < |t.polls| ==> InWindow(epoch, t.polls[k])
  }

  /** The calls of a prefix return whenever the calls of the whole sequence do. */
  lemma {:induction false} ReadyPrefix(st: GenState, ticks: seq<Tick>, n: nat)
    requires ReadyAll(st, ticks) && n <= |ticks|
    ensures ReadyAll(st, ticks[..n])
    decreases |ticks|
  {
    if n < |ticks| {
      assert ticks[..|ticks| - 1][..n] == ticks[..n];
      ReadyPrefix(st, ticks[..|ticks| - 1], n);
    } else {
      assert ticks[..n] == ticks;
    }
  }

  /** The clock assumption for a sequence holds for each of its prefixes. */
  lemma {:induction false} CaughtUpPrefix(st: GenState, ticks: seq<Tick>, n: nat)
    requires ReadyAll(st, ticks) && CaughtUpAll(st, ticks) && n <= |ticks|
    ensures ReadyAll(st, ticks[..n]) && CaughtUpAll(st, ticks[..n])
    decreases |ticks|
  {
    ReadyPrefix(st, ticks, n);
    if n < |ticks| {
      assert ticks[..|ticks| - 1][..n] == ticks[..n];
      CaughtUpPrefix(st, ticks[..|ticks| - 1], n);
    } else {
      assert ticks[..n] == ticks;
    }
  }

  /** The calls of a sequence, taken one more at a time. */
  lemma RunExtend(st: GenState, ticks: seq<Tick>, i: nat)
    requires ReadyAll(st, ticks) && i < |ticks|
    ensures ReadyAll(st, ticks[..i]) && Ready(Run(st, ticks[..i]), ticks[i])
    ensures ReadyAll(st, ticks[..i + 1]) && Run(st, ticks[..i + 1]) == Step(Run(st, ticks[..i]), ticks[i])
  {
    ReadyPrefix(st, ticks, i + 1);
    assert ticks[..i + 1][..i] == ticks[..i];
  }

  /** One more call of a batch: its state and its identifier extend those of the calls before it. */
  lemma EmittedExtend(epoch: int64, processID: int64, workerID: int64, st: GenState, ticks: seq<Tick>, count: nat, i: nat)
    requires 0 <= processID <= MaxProcessID && 0 <= workerID <= MaxWorkerID
    requires i < count <= |ticks| && ReadyAll(st, ticks[..count])
    ensures ReadyAll(st, ticks[..i]) && Ready(Run(st, ticks[..i]), ticks[i]) && ReadyAll(st, ticks[..i + 1])
    ensures var after := Run(st, ticks[..i + 1]);
            after == Step(Run(st, ticks[..i]), ticks[i]) &&
            Emitted(epoch, processID, workerID, st, ticks[..i + 1])
              == Emitted(epoch, processID, workerID, st, ticks[..i]) + [Pack(epoch, processID, workerID, after.lastTimestamp, after.sequence)]
  {
    RunExtend(st, ticks[..count], i);
    assert ticks[..count][..i] == ticks[..i] && ticks[..count][..i + 1] == ticks[..i + 1];
    assert ticks[..i + 1][..i] == ticks[..i];
  }

  /** The clock assumption for a sequence holds at each of its calls. */
  lemma CaughtUpExtend(st: GenState, ticks: seq<Tick>, i: nat)
    requires ReadyAll(st, ticks) && CaughtUpAll(st, ticks) && i < |ticks|
    ensures ReadyAll(st, ticks[..i]) && CaughtUp(Run(st, ticks[..i]), ticks[i])
  {
    CaughtUpPrefix(st, ticks, i + 1);
    assert ticks[..i + 1][..i] == ticks[..i];
  }

  /** Identifiers in strictly increasing order, hence pairwise distinct. */
  predicate StrictlyIncreasing(ids: seq<int64>)
  {
    forall i, j :: 0 <= i < j < |ids| ==> ids[i] < ids[j]
  }

  lemma AppendIncreasing(ids: seq<int64>, id: int64)
    requires StrictlyIncreasing(ids) && (|ids| > 0 ==> ids[|ids| - 1] < id)
    ensures StrictlyIncreasing(ids + [id])
  {
  }

  /** A Snowflake generator: fixed identity and epoch, mutable clock state. */
  class Snowflake {
    const epoch: int64
    const processID: int64
    const workerID: int64
    var sequence: int64
    var lastTimestamp: int64

    predicate IDsInRange()
    {
      0 <= processID <= MaxProcessID && 0 <= workerID <= MaxWorkerID
    }

    ghost predicate Valid()
      reads this
    {
      IDsInRange() && 0 <= sequence <= MaxSequence
    }

    function State(): GenState
      reads this
    {
      GenState(lastTimestamp, sequence)
    }

    /** The struct literal of the constructor, reached only once the IDs passed the range checks. */
    constructor (processID: int64, workerID: int64, epoch: int64)
      requires CheckIDs(processID, workerID) == None
      ensures Valid()
      ensures this.processID == processID && this.workerID == workerID && this.epoch == epoch
      ensures State() == GenState(0, 0)
    {
      this.epoch := epoch;
      this.processID := processID;
      this.workerID := workerID;
      this.sequence := 0;
      this.lastTimestamp := 0;
    }

    function ProcessID(): (r: int64)
      requires IDsInRange()
      ensures 0 <= r <= MaxProcessID
    {
      processID
    }

    function WorkerID(): (r: int64)
      requires IDsInRange()
      ensures 0 <= r <= MaxWorkerID
    {
      workerID
    }

    function Epoch(): int64
    {
      epoch
    }

    /** The absolute millisecond of an identifier: arithmetic shift right by 22, plus the epoch. */
    function ExtractTimestamp(id: int64): int64
    {
      Wrap64(id / TimestampUnit + epoch)
    }

    /** `(id >> 17) & 31` */
    function ExtractProcessID(id: int64): (r: int64)
      ensures 0 <= r <= MaxProcessID
    {
      (id / ProcessIDUnit) % (MaxProcessID + 1)
    }

    /** `(id >> 12) & 31` */
    function ExtractWorkerID(id: int64): (r: int64)
      ensures 0 <= r <= MaxWorkerID
    {
      (id / WorkerIDUnit) % (MaxWorkerID + 1)
    }

    /** `id & 4095` */
    function ExtractSequence(id: int64): (r: int64)
      ensures 0 <= r <= MaxSequence
    {
      id % (MaxSequence + 1)
    }

    /** Polls the clock until it passes `lastTimestamp` and returns that reading. */
    method WaitNextMillis(lastTimestamp: int64, polls: seq<int64>) returns (timestamp: int64)
      requires Advances(polls, lastTimestamp)
      ensures timestamp > lastTimestamp
      ensures exists k :: 0 <= k < |polls| && polls[k] == timestamp && forall j :: 0 <= j < k ==> polls[j] <= lastTimestamp
    {
      var i := 0;
      timestamp := polls[0];
      while timestamp <= lastTimestamp
        invariant 0 <= i < |polls| && timestamp == polls[i]
        invariant forall j :: 0 <= j < i ==> polls[j] <= lastTimestamp
        decreases |polls| - i
      {
        if i + 1 == |polls| {
          var k :| 0 <= k < |polls| && polls[k] > lastTimestamp;
          assert false;
        }
        i := i + 1;
        timestamp := polls[i];
      }
    }

    /** Mints one identifier from the clock readings `tick`. */
    method Generate(tick: Tick) returns (id: int64)
      requires Valid()
      requires Ready(State(), tick)
      modifies this
      ensures Valid()
      ensures State() == Step(old(State()), tick)
      ensures id == Pack(epoch, processID, workerID, lastTimestamp, sequence)
    {
      var timestamp := tick.now;
      if timestamp < lastTimestamp {
        timestamp := tick.retry;
      }
      if timestamp == lastTimestamp {
        sequence := (sequence + 1) % (MaxSequence + 1);
        if sequence == 0 {
          timestamp := WaitNextMillis(lastTimestamp, tick.polls);
          assert timestamp == FirstAfter(tick.polls, old(lastTimestamp)) by {
            FirstAfterUnique(tick.polls, lastTimestamp, timestamp);
          }
        }
      } else {
        sequence := 0;
      }
      lastTimestamp := timestamp;
      id := Pack(epoch, processID, workerID, lastTimestamp, sequence);
    }

    /** Mints `count` identifiers, one Generate call per tick of `ticks[..count]`. */
    method GenerateBatch(count: int, ticks: seq<Tick>) returns (ids: seq<int64>)
      requires Valid()
      requires 0 <= count <= |ticks|
      requires ReadyAll(State(), ticks[..count])
      modifies this
      ensures Valid()
      ensures State() == Run(old(State()), ticks[..count])
      ensures ids == Emitted(epoch, processID, workerID, old(State()), ticks[..count])
      ensures |ids| == count
    {
      ghost var st0 := State();
      var out := new int64[count];
      var i := 0;
      while i < count
        invariant 0 <= i <= count
        invariant Valid()
        invariant ReadyAll(st0, ticks[..i]) && State() == Run(st0, ticks[..i])
        invariant out[..i] == Emitted(epoch, processID, workerID, st0, ticks[..i])
        modifies this, out
      {
        EmittedExtend(epoch, processID, workerID, st0, ticks, count, i);
        var id := Generate(ticks[i]);
        out[i] := id;
        assert out[..i + 1] == out[..i] + [id];
        i := i + 1;
      }
      assert ticks[..count] == ticks[..i];
      ids := out[..];
      assert ids == out[..i];
    }
  }

  /** The identifiers a sequence of calls emits, in order: each packs the state its call leaves behind. */
  function Emitted(epoch: int64, processID: int64, workerID: int64, st: GenState, ticks: seq<Tick>): (ids: seq<int64>)
    requires 0 <= processID <= MaxProcessID && 0 <= workerID <= MaxWorkerID
    requires ReadyAll(st, ticks)
    ensures |ids| == |ticks|
    decreases |ticks|
  {
    if ticks == [] then []
    else
      var after := Run(st, ticks);
      Emitted(epoch, processID, workerID, st, ticks[..|ticks| - 1]) + [Pack(epoch, processID, workerID, after.lastTimestamp, after.sequence)]
  }

  /** Every identifier decodes to the generator's process and worker IDs. */
  predicate FromGenerator(s: Snowflake, ids: seq<int64>)
  {
    forall k :: 0 <= k < |ids| ==> s.ExtractProcessID(ids[k]) == s.processID && s.ExtractWorkerID(ids[k]) == s.workerID
  }

  /** Every identifier of a run decodes to the generator's process and worker IDs. */
  lemma {:induction false} EmittedFields(s: Snowflake, st: GenState, ticks: seq<Tick>)
    requires s.IDsInRange() && ReadyAll(st, ticks)
    ensures FromGenerator(s, Emitted(s.epoch, s.processID, s.workerID, st, ticks))
    decreases |ticks|
  {
    if ticks != [] {
      var pre := ticks[..|ticks| - 1];
      EmittedFields(s, st, pre);
      var after := Run(st, ticks);
      FieldsRoundTrip(s, after.lastTimestamp, after.sequence);
      var idsPre := Emitted(s.epoch, s.processID, s.workerID, st, pre);
      var id := Pack(s.epoch, s.processID, s.workerID, after.lastTimestamp, after.sequence);
      assert Emitted(s.epoch, s.processID, s.workerID, st, ticks) == idsPre + [id];
      AppendFromGenerator(s, idsPre, id);
    }
  }

  lemma AppendFromGenerator(s: Snowflake, ids: seq<int64>, id: int64)
    requires FromGenerator(s, ids)
    requires s.ExtractProcessID(id) == s.processID && s.ExtractWorkerID(id) == s.workerID
    ensures FromGenerator(s, ids + [id])
  {
    forall k | 0 <= k < |ids| + 1
      ensures s.ExtractProcessID((ids + [id])[k]) == s.processID && s.ExtractWorkerID((ids + [id])[k]) == s.workerID
    {
      if k < |ids| {
        assert (ids + [id])[k] == ids[k];
      }
    }
  }

  /** Under the clock assumption, with every reading in the epoch's window, the identifiers of a run strictly
      increase, so no two are equal. */
  lemma {:induction false} EmittedIncreasing(s: Snowflake, st: GenState, ticks: seq<Tick>)
    requires s.IDsInRange() && ReadyAll(st, ticks) && CaughtUpAll(st, ticks)
    requires forall k :: 0 <= k < |ticks| ==> TickInWindow(s.epoch, ticks[k])
    ensures StrictlyIncreasing(Emitted(s.epoch, s.processID, s.workerID, st, ticks))
    ensures ticks != [] ==> InWindow(s.epoch, Run(st, ticks).lastTimestamp)
    decreases |ticks|
  {
    if ticks != [] {
      var n := |ticks| - 1;
      var pre := ticks[..n];
      assert forall k :: 0 <= k < |pre| ==> pre[k] == ticks[k];
      EmittedIncreasing(s, st, pre);
      var mid := Run(st, pre);
      var after := Run(st, ticks);
      assert after == Step(mid, ticks[n]);
      StepTimestampIsReading(mid, ticks[n]);
      assert TickInWindow(s.epoch, ticks[n]);
      var ids := Emitted(s.epoch, s.processID, s.workerID, st, pre);
      var id := Pack(s.epoch, s.processID, s.workerID, after.lastTimestamp, after.sequence);
      if n > 0 {
        assert ids[n - 1] == Pack(s.epoch, s.processID, s.workerID, mid.lastTimestamp, mid.sequence);
        StepIncreases(mid, ticks[n]);
        PackOrdered(s, mid.lastTimestamp, mid.sequence, after.lastTimestamp, after.sequence);
      }
      AppendIncreasing(ids, id);
    }
  }

  /** The small fields of a sum of shifted fields are read back by the decoders' shifts and masks. */
  lemma {:induction false} FieldsOfSum(w: int, processID: int, workerID: int, sequence: int)
    requires 0 <= processID <= MaxProcessID && 0 <= workerID <= MaxWorkerID && 0 <= sequence <= MaxSequence
    ensures var id := w * TimestampUnit + processID * ProcessIDUnit + workerID * WorkerIDUnit + sequence;
            (id / ProcessIDUnit) % 32 == processID && (id / WorkerIDUnit) % 32 == workerID && id % 4096 == sequence
  {
    var id := w * TimestampUnit + processID * ProcessIDUnit + workerID * WorkerIDUnit + sequence;
    var hi := w * 32 + processID;
    var mid := hi * 32 + workerID;
    assert id / ProcessIDUnit == hi by { DivBy(id, ProcessIDUnit, hi, workerID * WorkerIDUnit + sequence); }
    assert id / WorkerIDUnit == mid by { DivBy(id, WorkerIDUnit, mid, sequence); }
  }

  /** Euclidean division by a positive divisor has a unique quotient. */
  lemma {:induction false} DivBy(x: int, n: int, q: int, r: int)
    requires 0 < n && x == q * n + r && 0 <= r < n
    ensures x / n == q
  {
    var q', r' := x / n, x % n;
    assert x == q' * n + r';
    if q' < q {
      assert (q - q') * n >= n by { MulAtLeast(q - q', n); }
    } else if q' > q {
      assert (q' - q) * n >= n by { MulAtLeast(q' - q, n); }
    }
  }

  lemma {:induction false} MulAtLeast(k: int, n: int)
    requires k >= 1 && n > 0
    ensures k * n >= n
  {
  }

  /** The first reading past `last` is unique. */
  lemma FirstAfterUnique(polls: seq<int64>, last: int64, r: int64)
    requires Advances(polls, last)
    requires exists k :: 0 <= k < |polls| && polls[k] == r && r > last && forall j :: 0 <= j < k ==> polls[j] <= last
    ensures r == FirstAfter(polls, last)
  {
    var k :| 0 <= k < |polls| && polls[k] == r && r > last && forall j :: 0 <= j < k ==> polls[j] <= last;
    var r' := FirstAfter(polls, last);
    var k' :| 0 <= k' < |polls| && polls[k'] == r' && forall j :: 0 <= j < k' ==> polls[j] <= last;
    assert k == k';
  }

  /** NewWithEpoch: validates the IDs (process ID first) and builds a generator with a zero clock state. */
  method NewWithEpoch(processID: int64, workerID: int64, epoch: int64) returns (r: Result<Snowflake, SnowflakeError>)
    ensures r.Failure? <==> CheckIDs(processID, workerID).Some?
    ensures r.Failure? ==> r.error == CheckIDs(processID, workerID).value
    ensures r.Success? ==>
              fresh(r.value) && r.value.Valid() && r.value.State() == GenState(0, 0) &&
              r.value.ProcessID() == processID && r.value.WorkerID() == workerID && r.value.Epoch() == epoch
  {
    var err := CheckIDs(processID, workerID);
    if err.Some? {
      return Failure(err.value);
    }
    var s := new Snowflake(processID, workerID, epoch);
    return Success(s);
  }

  /** New: NewWithEpoch with the library's default epoch. */
  method New(processID: int64, workerID: int64) returns (r: Result<Snowflake, SnowflakeError>)
    ensures r.Failure? <==> CheckIDs(processID, workerID).Some?
    ensures r.Failure? ==> r.error == CheckIDs(processID, workerID).value
    ensures r.Success? ==>
              fresh(r.value) && r.value.Valid() && r.value.State() == GenState(0, 0) &&
              r.value.ProcessID() == processID && r.value.WorkerID() == workerID && r.value.Epoch() == DefaultEpoch
  {
    r := NewWithEpoch(processID, workerID, DefaultEpoch);
  }

  /** Decoding recovers the process ID, worker ID and sequence of every identifier the generator packs,
      whatever its timestamp. */
  lemma {:induction false} FieldsRoundTrip(s: Snowflake, timestamp: int64, sequence: int64)
    requires s.IDsInRange() && 0 <= sequence <= MaxSequence
    ensures var id := Pack(s.epoch, s.processID, s.workerID, timestamp, sequence);
            s.ExtractProcessID(id) == s.processID && s.ExtractWorkerID(id) == s.workerID && s.ExtractSequence(id) == sequence
  {
    var w := Wrap42(Wrap64(timestamp - s.epoch));
    var id := Pack(s.epoch, s.processID, s.workerID, timestamp, sequence);
    assert id == w * TimestampUnit + s.processID * ProcessIDUnit + s.workerID * WorkerIDUnit + sequence by {
      PackLayout(s.epoch, s.processID, s.workerID, timestamp, sequence);
    }
    FieldsOfSum(w, s.processID, s.workerID, sequence);
  }

  /** Within the window, decoding recovers the timestamp, the identifier is non-negative exactly when the
      timestamp is not before the epoch, and then it is the plain sum of the shifted fields. */
  lemma {:induction false} TimestampRoundTrip(s: Snowflake, timestamp: int64, sequence: int64)
    requires s.IDsInRange() && 0 <= sequence <= MaxSequence
    requires InWindow(s.epoch, timestamp)
    ensures var id := Pack(s.epoch, s.processID, s.workerID, timestamp, sequence);
            s.ExtractTimestamp(id) == timestamp &&
            (id >= 0 <==> timestamp >= s.epoch) &&
            (timestamp >= s.epoch ==>
               id == (timestamp - s.epoch) * TimestampUnit + s.processID * ProcessIDUnit + s.workerID * WorkerIDUnit + sequence)
  {
    var d := timestamp - s.epoch;
    PackLayout(s.epoch, s.processID, s.workerID, timestamp, sequence);
    assert Wrap42(d) == d;
  }

  /** Within the window, packing is strictly monotone in (timestamp, sequence). */
  lemma {:induction false} PackOrdered(s: Snowflake, ts1: int64, seq1: int64, ts2: int64, seq2: int64)
    requires s.IDsInRange() && 0 <= seq1 <= MaxSequence && 0 <= seq2 <= MaxSequence
    requires InWindow(s.epoch, ts1) && InWindow(s.epoch, ts2)
    requires Before(GenState(ts1, seq1), GenState(ts2, seq2))
    ensures Pack(s.epoch, s.processID, s.workerID, ts1, seq1) < Pack(s.epoch, s.processID, s.workerID, ts2, seq2)
  {
    PackLayout(s.epoch, s.processID, s.workerID, ts1, seq1);
    PackLayout(s.epoch, s.processID, s.workerID, ts2, seq2);
    assert Wrap42(ts1 - s.epoch) == ts1 - s.epoch;
    assert Wrap42(ts2 - s.epoch) == ts2 - s.epoch;
  }
}
