// The run's record cache (packages/trace/src/trace-buffer.ts): numbers the records and forgets them oldest first.
module TraceCache {
  import opened Wrappers
  import opened Trace

  datatype Cache = Cache(
    runId: string,
    capacity: nat,
    records: seq<TraceRecord>,
    next: nat,
    lastSimTime: real,
    dropped: nat,
    holding: bool,
    persistedSeq: int)

  // What is left once the oldest saved records beyond the capacity are forgotten.
  function Forget(records: seq<TraceRecord>, capacity: nat, persistedSeq: int): seq<TraceRecord> {
    if |records| > capacity && records[0].seqNo <= persistedSeq then Forget(records[1..], capacity, persistedSeq)
    else records
  }

  // Forgets what may be forgotten beyond the capacity.
  function Trim(c: Cache): Cache {
    if |c.records| <= c.capacity then c
    else if c.holding then c.(records := Forget(c.records, c.capacity, c.persistedSeq))
    else c.(records := c.records[1..], dropped := c.dropped + 1)
  }

  function Push(c: Cache, r: RecordInput, source: string): Cache {
    Trim(c.(records := c.records + [Stamp(r, c.runId, c.next, source)], next := c.next + 1, lastSimTime := r.simTime))
  }

  function HoldUnpersisted(c: Cache): Cache { c.(holding := true) }

  function MarkPersisted(c: Cache, through: int): Cache {
    var capped := if through <= c.next - 1 then through else c.next - 1;
    var p := if c.persistedSeq >= capped then c.persistedSeq else capped;
    c.(persistedSeq := p, records := if c.holding then Forget(c.records, c.capacity, p) else c.records)
  }

  function Since(c: Cache, from: int): seq<TraceRecord> {
    if c.records == [] then []
    else
      var k := from - c.records[0].seqNo;
      if k <= 0 then c.records else if k >= |c.records| then [] else c.records[k..]
  }

  // The seq of the oldest record the cache still holds (the next one, when it holds none).
  ghost function First(c: Cache): int { c.next - |c.records| }

  ghost predicate LogInv(log: seq<TraceRecord>, base: nat, next: nat, lastSimTime: real) {
    && Numbered(log, base)
    && TimeOrdered(log)
    && next == base + |log|
    && (log != [] ==> log[|log| - 1].simTime <= lastSimTime)
  }

  // The cache holds the last records of the log, none missing in between.
  ghost predicate IsTail(records: seq<TraceRecord>, log: seq<TraceRecord>) {
    |records| <= |log| && records == log[|log| - |records|..]
  }

  ghost predicate WindowInv(c: Cache, base: nat, log: seq<TraceRecord>, heldFrom: nat) {
    && LogInv(log, base, c.next, c.lastSimTime)
    && IsTail(c.records, log)
    && c.next == base + |log|
    && -1 <= c.persistedSeq < c.next
    && (!c.holding ==> c.dropped == |log| - |c.records|)
    && (c.holding ==> heldFrom <= First(c))
    && (c.holding ==> First(c) == heldFrom || First(c) <= c.persistedSeq + 1)
  }

  ghost predicate Trimmed(c: Cache) {
    |c.records| <= c.capacity || (c.holding && c.records[0].seqNo > c.persistedSeq)
  }

  // `log` is everything emitted since the cache started at `base`; `heldFrom` is the oldest record it held when
  // it began to hold unsaved records.
  ghost predicate CacheInv(c: Cache, base: nat, log: seq<TraceRecord>, heldFrom: nat) {
    WindowInv(c, base, log, heldFrom) && Trimmed(c)
  }

  // Forgetting takes a prefix of saved records and stops as soon as it may.
  lemma {:induction false} ForgetTakesSavedPrefix(rs: seq<TraceRecord>, capacity: nat, p: int)
    ensures var kept := Forget(rs, capacity, p);
      && |kept| <= |rs|
      && kept == rs[|rs| - |kept|..]
      && (forall k :: 0 <= k < |rs| - |kept| ==> rs[k].seqNo <= p)
      && (|kept| > capacity ==> kept[0].seqNo > p)
      && (|kept| < |rs| ==> |kept| >= capacity)
  {
    if |rs| > capacity && rs[0].seqNo <= p {
      ForgetTakesSavedPrefix(rs[1..], capacity, p);
    }
  }

  // Forgetting at most `p` leaves the invariant's cache clauses for any cache that held from `heldFrom`.
  lemma ForgetKeepsTail(log: seq<TraceRecord>, base: nat, records: seq<TraceRecord>, capacity: nat, p: int, heldFrom: nat)
    requires Numbered(log, base) && IsTail(records, log)
    requires p < base + |log|
    requires heldFrom <= base + |log| - |records|
    requires base + |log| - |records| == heldFrom || base + |log| - |records| <= p + 1
    ensures var kept := Forget(records, capacity, p);
      && |kept| <= |records| && IsTail(kept, log)
      && (base + |log| - |kept| == heldFrom || base + |log| - |kept| <= p + 1)
      && (|kept| > capacity ==> kept[0].seqNo > p)
  {
    ForgetTakesSavedPrefix(records, capacity, p);
    var kept := Forget(records, capacity, p);
    var d := |records| - |kept|;
    if d > 0 {
      assert records[d - 1] == log[|log| - |records| + d - 1];
    }
  }

  lemma LogGrows(log: seq<TraceRecord>, base: nat, next: nat, last: real, rec: TraceRecord)
    requires LogInv(log, base, next, last)
    requires rec.seqNo == next && last <= rec.simTime
    ensures LogInv(log + [rec], base, next + 1, rec.simTime)
  {
    forall j, k | 0 <= j < k < |log| + 1 ensures (log + [rec])[j].simTime <= (log + [rec])[k].simTime {
      if k == |log| && j < |log| - 1 {
        assert log[j].simTime <= log[|log| - 1].simTime;
      }
    }
  }

  lemma TailGrows(records: seq<TraceRecord>, log: seq<TraceRecord>, rec: TraceRecord)
    requires IsTail(records, log)
    ensures IsTail(records + [rec], log + [rec])
  {
  }

  lemma TailShrinks(records: seq<TraceRecord>, log: seq<TraceRecord>)
    requires IsTail(records, log) && records != []
    ensures IsTail(records[1..], log)
  {
  }

  lemma TrimKeepsInv(c: Cache, base: nat, log: seq<TraceRecord>, heldFrom: nat)
    requires WindowInv(c, base, log, heldFrom)
    requires !c.holding ==> |c.records| <= c.capacity + 1
    ensures CacheInv(Trim(c), base, log, heldFrom) && First(c) <= First(Trim(c))
  {
    if |c.records| > c.capacity {
      if c.holding {
        ForgetKeepsTail(log, base, c.records, c.capacity, c.persistedSeq, heldFrom);
      } else {
        TailShrinks(c.records, log);
      }
    }
    hide LogInv, IsTail, Forget;
  }

  lemma AppendKeepsWindow(c: Cache, rec: TraceRecord, base: nat, log: seq<TraceRecord>, heldFrom: nat)
    requires WindowInv(c, base, log, heldFrom) && rec.seqNo == c.next && rec.simTime >= c.lastSimTime
    ensures WindowInv(c.(records := c.records + [rec], next := c.next + 1, lastSimTime := rec.simTime), base, log + [rec], heldFrom)
  {
    LogGrows(log, base, c.next, c.lastSimTime, rec);
    TailGrows(c.records, log, rec);
    hide LogInv, IsTail;
  }

  lemma PushKeepsInv(c: Cache, r: RecordInput, source: string, base: nat, log: seq<TraceRecord>, heldFrom: nat)
    requires CacheInv(c, base, log, heldFrom) && r.simTime >= c.lastSimTime
    ensures CacheInv(Push(c, r, source), base, log + [Stamp(r, c.runId, c.next, source)], heldFrom)
    ensures Push(c, r, source).next == c.next + 1
    ensures First(c) <= First(Push(c, r, source))
  {
    hide Trim, WindowInv, RecordId;
    var rec := Stamp(r, c.runId, c.next, source);
    AppendKeepsWindow(c, rec, base, log, heldFrom);
    var c1 := c.(records := c.records + [rec], next := c.next + 1, lastSimTime := r.simTime);
    TrimKeepsInv(c1, base, log + [rec], heldFrom);
    TrimKeepsNext(c1);
  }

  lemma TrimKeepsNext(c: Cache)
    ensures Trim(c).next == c.next
  {
  }

  lemma HoldKeepsInv(c: Cache, base: nat, log: seq<TraceRecord>, heldFrom: nat)
    requires CacheInv(c, base, log, heldFrom)
    ensures CacheInv(HoldUnpersisted(c), base, log, if c.holding then heldFrom else First(c))
  {
  }

  lemma MarkPersistedKeepsInv(c: Cache, through: int, base: nat, log: seq<TraceRecord>, heldFrom: nat)
    requires CacheInv(c, base, log, heldFrom)
    ensures var c' := MarkPersisted(c, through);
      CacheInv(c', base, log, heldFrom) && First(c) <= First(c') && c'.next == c.next
  {
    if c.holding {
      ForgetKeepsTail(log, base, c.records, c.capacity, MarkPersisted(c, through).persistedSeq, heldFrom);
    }
  }

  // A reader that asks from a seq the cache has not passed gets every record from there on, none skipped.
  lemma SinceSkipsNothing(c: Cache, base: nat, log: seq<TraceRecord>, heldFrom: nat, from: int)
    requires CacheInv(c, base, log, heldFrom)
    ensures First(c) <= from ==> Since(c, from) == From(log, base, from)
    ensures from <= First(c) ==> Since(c, from) == c.records
  {
    if c.records != [] {
      assert c.records[0] == log[|log| - |c.records|];
    }
  }

  // Operations of the cache, as its users call them.
  datatype CacheOp = OpPush(r: RecordInput, source: string) | OpHold | OpMark(through: int)

  function Apply(c: Cache, op: CacheOp): Cache {
    match op
    case OpPush(r, source) => if r.simTime < c.lastSimTime then c else Push(c, r, source)
    case OpHold => HoldUnpersisted(c)
    case OpMark(through) => MarkPersisted(c, through)
  }

  function EmittedBy(c: Cache, op: CacheOp): seq<TraceRecord> {
    if op.OpPush? && op.r.simTime >= c.lastSimTime then [Stamp(op.r, c.runId, c.next, op.source)] else []
  }

  function Emitted(c: Cache, ops: seq<CacheOp>): seq<TraceRecord>
    decreases |ops|
  {
    if ops == [] then [] else EmittedBy(c, ops[0]) + Emitted(Apply(c, ops[0]), ops[1..])
  }

  function Run(c: Cache, ops: seq<CacheOp>): Cache
    decreases |ops|
  {
    if ops == [] then c else Run(Apply(c, ops[0]), ops[1..])
  }

  lemma ApplyKeepsInv(c: Cache, op: CacheOp, base: nat, log: seq<TraceRecord>, heldFrom: nat)
    requires c.holding && CacheInv(c, base, log, heldFrom)
    ensures var c' := Apply(c, op);
      && CacheInv(c', base, log + EmittedBy(c, op), heldFrom)
      && c'.holding && c.persistedSeq <= c'.persistedSeq && c'.capacity == c.capacity
  {
    assert log + [] == log;
    match op {
      case OpPush(r, source) => if r.simTime >= c.lastSimTime { PushKeepsInv(c, r, source, base, log, heldFrom); }
      case OpHold => HoldKeepsInv(c, base, log, heldFrom);
      case OpMark(through) => MarkPersistedKeepsInv(c, through, base, log, heldFrom);
    }
  }

  lemma {:induction false} RunKeepsInv(c: Cache, base: nat, log: seq<TraceRecord>, heldFrom: nat, ops: seq<CacheOp>)
    requires c.holding && CacheInv(c, base, log, heldFrom)
    ensures var c' := Run(c, ops);
      && CacheInv(c', base, log + Emitted(c, ops), heldFrom)
      && c'.holding && c.persistedSeq <= c'.persistedSeq && c'.capacity == c.capacity
    decreases |ops|
  {
    hide CacheInv, Apply, EmittedBy;
    if ops == [] {
      assert log + Emitted(c, ops) == log;
    } else {
      var c1 := Apply(c, ops[0]);
      var e1 := EmittedBy(c, ops[0]);
      ApplyKeepsInv(c, ops[0], base, log, heldFrom);
      RunKeepsInv(c1, base, log + e1, heldFrom, ops[1..]);
      assert log + (e1 + Emitted(c1, ops[1..])) == (log + e1) + Emitted(c1, ops[1..]);
    }
  }

  // Whatever is done to a cache that holds unsaved records, it stays a gap-free suffix of everything emitted; what it
  // forgot since was reported saved; it is over its capacity only while its oldest record is unsaved.
  lemma HeldCacheForgetsOnlySaved(c: Cache, base: nat, log: seq<TraceRecord>, heldFrom: nat, ops: seq<CacheOp>)
    requires c.holding && CacheInv(c, base, log, heldFrom)
    ensures var c' := Run(c, ops); var log' := log + Emitted(c, ops);
      && IsTail(c'.records, log')
      && (forall k :: 0 <= k < |log'| - |c'.records| && log'[k].seqNo >= heldFrom ==> log'[k].seqNo <= c'.persistedSeq)
      && (|c'.records| > c.capacity ==> c'.records[0].seqNo > c'.persistedSeq)
  {
    RunKeepsInv(c, base, log, heldFrom, ops);
  }

  datatype BufferError = TimeWentBackwards | NotEmpty | BadCursor

  class TraceBuffer {
    const runId: string
    const capacity: nat
    var records: seq<TraceRecord>
    var next: nat
    var lastSimTime: real
    var dropped: nat
    var holding: bool
    var persistedSeq: int

    ghost function View(): Cache
      reads this
    {
      Cache(runId, capacity, records, next, lastSimTime, dropped, holding, persistedSeq)
    }

    constructor (runId: string, capacity: nat)
      ensures View() == Cache(runId, capacity, [], 0, 0.0, 0, false, -1)
      ensures CacheInv(View(), 0, [], 0)
    {
      this.runId := runId;
      this.capacity := capacity;
      records, next, lastSimTime, dropped, holding, persistedSeq := [], 0, 0.0, 0, false, -1;
    }

    // An empty cache goes on from this number and time; one that holds records keeps its own.
    method RestoreCursor(at: int, time: real) returns (r: Result<(), BufferError>)
      modifies this`next, this`lastSimTime
      ensures r.Ok? <==> old(records) == [] && old(next) == 0 && at >= 0 && time >= 0.0
      ensures r.Ok? ==> View() == old(View()).(next := at, lastSimTime := time)
      ensures r.Err? ==> View() == old(View())
      ensures r.Ok? && -1 <= old(persistedSeq) < 0 && !holding && old(dropped) == 0 ==> CacheInv(View(), at, [], at)
    {
      if |records| > 0 || next != 0 { return Err(NotEmpty); }
      if at < 0 || !(time >= 0.0) { return Err(BadCursor); }
      next, lastSimTime := at, time;
      return Ok(());
    }

    method Append(r: RecordInput, source: string) returns (res: Result<TraceRecord, BufferError>)
      modifies this
      ensures res.Err? <==> r.simTime < old(lastSimTime)
      ensures res.Err? ==> View() == old(View())
      ensures res.Ok? ==> View() == Push(old(View()), r, source) && res.value == Stamp(r, runId, old(next), source)
    {
      if r.simTime < lastSimTime { return Err(TimeWentBackwards); }
      lastSimTime := r.simTime;
      var rec := Stamp(r, runId, next, source);
      next := next + 1;
      records := records + [rec];
      if |records| > capacity {
        if holding {
          ForgetPersisted();
        } else {
          records := records[1..];
          dropped := dropped + 1;
        }
      }
      return Ok(rec);
    }

    method Hold()
      modifies this`holding
      ensures View() == HoldUnpersisted(old(View()))
    {
      holding := true;
    }

    method Mark(through: int)
      modifies this`persistedSeq, this`records
      ensures View() == MarkPersisted(old(View()), through)
    {
      var capped := if through < next - 1 then through else next - 1;
      persistedSeq := if persistedSeq > capped then persistedSeq else capped;
      if holding { ForgetPersisted(); }
    }

    method ForgetPersisted()
      modifies this`records
      ensures records == Forget(old(records), capacity, persistedSeq)
    {
      var n := 0;
      while |records| - n > capacity && records[n].seqNo <= persistedSeq
        invariant 0 <= n <= |records|
        invariant records == old(records)
        invariant Forget(records, capacity, persistedSeq) == Forget(records[n..], capacity, persistedSeq)
      {
        assert records[n..][1..] == records[n + 1..];
        n := n + 1;
      }
      if n > 0 { records := records[n..]; }
    }

    method ReadSince(from: int) returns (r: seq<TraceRecord>)
      ensures r == Since(View(), from)
    {
      if |records| == 0 { return []; }
      var k := if from - records[0].seqNo > 0 then from - records[0].seqNo else 0;
      r := if k >= |records| then [] else records[k..];
    }
  }
}
