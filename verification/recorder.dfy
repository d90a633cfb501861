// The recorder at the producer (packages/trace/src/recorder.ts): gathers what the run emitted, keeps what the profile
// keeps, and hands batches and items to storage with flow control.
module Recording {
  import opened Wrappers
  import opened Trace
  import opened TraceCache

  // The recording profile with credential redaction, and how a record weighs: parameters of the model.
  datatype Profile = Profile(
    keep: TraceRecord -> Option<TraceRecord>,
    weight: TraceRecord -> nat,
    isPose: TraceRecord -> bool)

  datatype Flow = Flow(highRecords: nat, lowRecords: nat, highBytes: nat, lowBytes: nat) {
    ghost predicate Sensible() { lowRecords < highRecords && lowBytes < highBytes }
  }

  // A snapshot names the trace record that refers to it; frames and metrics name none.
  datatype Item = Item(refersFrom: Option<nat>, bytes: nat)

  datatype Head = Head(runId: string, throughSeq: int, tick: nat, simTime: real)

  datatype Message =
    | ItemMsg(item: Item)
    | BatchMsg(records: seq<TraceRecord>, head: Head)

  datatype InFlight = InFlight(throughSeq: int, records: nat, bytes: nat)

  datatype Recorder = Recorder(
    runId: string,
    flow: Flow,
    cursor: int,
    header: bool,
    waiting: bool,
    held: seq<TraceRecord>,
    heldBytes: nat,
    panel: seq<TraceRecord>,
    outbox: seq<Item>,
    itemsSent: nat,
    inFlight: seq<InFlight>,
    lastThroughSeq: int,
    handedOver: nat,
    simTick: nat,
    simTime: real,
    persistedAt: Option<Head>,
    sent: seq<Message>)

  // ---- what the profile keeps of a stretch of records --------------------------------------------------------------

  function KeptOne(p: Profile, r: TraceRecord): seq<TraceRecord> {
    match p.keep(r) case None => [] case Some(k) => [k]
  }

  function Kept(p: Profile, rs: seq<TraceRecord>): seq<TraceRecord> {
    if rs == [] then [] else KeptOne(p, rs[0]) + Kept(p, rs[1..])
  }

  function NotPoses(p: Profile, rs: seq<TraceRecord>): seq<TraceRecord> {
    if rs == [] then [] else (if p.isPose(rs[0]) then [] else [rs[0]]) + NotPoses(p, rs[1..])
  }

  function Weight(p: Profile, rs: seq<TraceRecord>): nat {
    if rs == [] then 0 else p.weight(rs[0]) + Weight(p, rs[1..])
  }

  lemma {:induction false} KeptConcat(p: Profile, a: seq<TraceRecord>, b: seq<TraceRecord>)
    ensures Kept(p, a + b) == Kept(p, a) + Kept(p, b)
  {
    if a == [] { assert a + b == b; } else {
      assert (a + b)[1..] == a[1..] + b;
      KeptConcat(p, a[1..], b);
    }
  }

  lemma {:induction false} NotPosesConcat(p: Profile, a: seq<TraceRecord>, b: seq<TraceRecord>)
    ensures NotPoses(p, a + b) == NotPoses(p, a) + NotPoses(p, b)
  {
    if a == [] { assert a + b == b; } else {
      assert (a + b)[1..] == a[1..] + b;
      NotPosesConcat(p, a[1..], b);
    }
  }

  lemma {:induction false} WeightConcat(p: Profile, a: seq<TraceRecord>, b: seq<TraceRecord>)
    ensures Weight(p, a + b) == Weight(p, a) + Weight(p, b)
  {
    if a == [] { assert a + b == b; } else {
      assert (a + b)[1..] == a[1..] + b;
      WeightConcat(p, a[1..], b);
    }
  }

  // ---- the steps -----------------------------------------------------------------------------------------------------

  function InFlightRecords(fs: seq<InFlight>): nat { if fs == [] then 0 else fs[0].records + InFlightRecords(fs[1..]) }

  function InFlightBytes(fs: seq<InFlight>): nat { if fs == [] then 0 else fs[0].bytes + InFlightBytes(fs[1..]) }

  function BacklogRecords(r: Recorder): nat { InFlightRecords(r.inFlight) + |r.held| }

  function BacklogBytes(r: Recorder): nat { InFlightBytes(r.inFlight) + r.heldBytes }

  function UpdateWaiting(r: Recorder): Recorder {
    var n, b := BacklogRecords(r), BacklogBytes(r);
    if !r.waiting then r.(waiting := n >= r.flow.highRecords || b >= r.flow.highBytes)
    else if n <= r.flow.lowRecords && b <= r.flow.lowBytes then r.(waiting := false)
    else r
  }

  function Start(runId: string, flow: Flow, fromSeq: nat): Recorder {
    Recorder(runId, flow, fromSeq, false, false, [], 0, [], [], 0, [], -1, 0, 0, 0.0, None, [])
  }

  function Flush(r: Recorder): Recorder {
    if r.held == [] && r.inFlight == [] && r.itemsSent == 0 then
      if r.persistedAt.None? then r
      else r.(persistedAt := Some(r.persistedAt.value.(tick := r.simTick, simTime := r.simTime)))
    else
      r.(held := [], itemsSent := 0, heldBytes := 0,
         inFlight := r.inFlight + [InFlight(r.lastThroughSeq, |r.held|, r.heldBytes)],
         sent := r.sent + [BatchMsg(r.held, Head(r.runId, r.lastThroughSeq, r.simTick, r.simTime))])
  }

  function ItemMessages(items: seq<Item>): seq<Message> { seq(|items|, i requires 0 <= i < |items| => ItemMsg(items[i])) }

  function Dispatch(r: Recorder, items: seq<Item>): Recorder {
    r.(itemsSent := r.itemsSent + |items|, sent := r.sent + ItemMessages(items))
  }

  function HeaderStored(r: Recorder): Recorder {
    if r.header then r
    else UpdateWaiting(Flush(Dispatch(r.(header := true, outbox := []), r.outbox)))
  }

  function Enqueue(r: Recorder, item: Item): Recorder {
    var r1 := r.(heldBytes := r.heldBytes + item.bytes);
    UpdateWaiting(if r.header then Dispatch(r1, [item]) else r1.(outbox := r.outbox + [item]))
  }

  // Adds kept records to what is held for sending and to the panel's stream.
  function Add(p: Profile, r: Recorder, kept: seq<TraceRecord>): Recorder {
    r.(held := r.held + kept, handedOver := r.handedOver + |kept|, heldBytes := r.heldBytes + Weight(p, kept),
       panel := r.panel + NotPoses(p, kept))
  }

  function Gather(p: Profile, r: Recorder, news: seq<TraceRecord>): Recorder {
    if news == [] then r
    else
      var last := news[|news| - 1].seqNo;
      Add(p, r.(cursor := last + 1, lastThroughSeq := last), Kept(p, news))
  }

  function Collect(p: Profile, r: Recorder, news: seq<TraceRecord>, tick: nat, time: real): Recorder {
    var r1 := Gather(p, r.(simTick := tick, simTime := time), news);
    UpdateWaiting(if r1.header then Flush(r1) else r1)
  }

  function Release(fs: seq<InFlight>, through: int): seq<InFlight> {
    if fs != [] && fs[0].throughSeq <= through then Release(fs[1..], through) else fs
  }

  // Whether the recorder takes a report: of its own run, and not from before what it already has.
  predicate Accepts(r: Recorder, head: Head) {
    head.runId == r.runId && !(r.persistedAt.Some? && head.tick < r.persistedAt.value.tick)
  }

  function Persisted(r: Recorder, head: Head): Recorder {
    if !Accepts(r, head) then r
    else UpdateWaiting(r.(inFlight := Release(r.inFlight, head.throughSeq), persistedAt := Some(head)))
  }

  function TakePanel(r: Recorder): Recorder { r.(panel := []) }

  lemma {:induction false} InFlightAppend(fs: seq<InFlight>, f: InFlight)
    ensures InFlightRecords(fs + [f]) == InFlightRecords(fs) + f.records
    ensures InFlightBytes(fs + [f]) == InFlightBytes(fs) + f.bytes
  {
    if fs != [] {
      assert (fs + [f])[1..] == fs[1..] + [f];
      InFlightAppend(fs[1..], f);
    }
  }

  lemma {:induction false} ReleaseIsSuffix(fs: seq<InFlight>, through: int)
    ensures var left := Release(fs, through);
      && |left| <= |fs| && left == fs[|fs| - |left|..]
      && (forall i :: 0 <= i < |fs| - |left| ==> fs[i].throughSeq <= through)
      && (left != [] ==> left[0].throughSeq > through)
  {
    if fs != [] && fs[0].throughSeq <= through { ReleaseIsSuffix(fs[1..], through); }
  }

  lemma AddTwice(p: Profile, r: Recorder, a: seq<TraceRecord>, b: seq<TraceRecord>)
    ensures Add(p, Add(p, r, a), b) == Add(p, r, a + b)
  {
    WeightConcat(p, a, b);
    NotPosesConcat(p, a, b);
    hide Weight, NotPoses;
    assert r.held + a + b == r.held + (a + b);
    assert r.panel + NotPoses(p, a) + NotPoses(p, b) == r.panel + (NotPoses(p, a) + NotPoses(p, b));
  }

  lemma AddOne(p: Profile, r: Recorder, kept: TraceRecord)
    ensures Add(p, r, [kept]) == r.(held := r.held + [kept], handedOver := r.handedOver + 1,
      heldBytes := r.heldBytes + p.weight(kept), panel := r.panel + if p.isPose(kept) then [] else [kept])
  {
    assert Weight(p, [kept]) == p.weight(kept) + Weight(p, []);
    assert NotPoses(p, [kept]) == (if p.isPose(kept) then [] else [kept]) + NotPoses(p, []);
  }

  lemma AddNothing(p: Profile, r: Recorder)
    ensures Add(p, r, []) == r && Kept(p, []) == []
  {
  }

  // ---- the class -------------------------------------------------------------------------------------------------------

  datatype RecorderError = NoItemChannel

  class RunRecorder {
    const buffer: TraceBuffer
    const profile: Profile
    const flow: Flow
    const canSendItems: bool
    var cursor: int
    var header: bool
    var isWaiting: bool
    var held: seq<TraceRecord>
    var heldBytes: nat
    var panel: seq<TraceRecord>
    var outbox: seq<Item>
    var itemsSent: nat
    var inFlight: seq<InFlight>
    var lastThroughSeq: int
    var handedOver: nat
    var simTick: nat
    var simTime: real
    var persistedAt: Option<Head>
    // What the two callbacks were given, in call order.
    var sent: seq<Message>

    ghost function View(): Recorder
      reads this
    {
      Recorder(buffer.runId, flow, cursor, header, isWaiting, held, heldBytes, panel, outbox, itemsSent, inFlight,
               lastThroughSeq, handedOver, simTick, simTime, persistedAt, sent)
    }

    constructor (buffer: TraceBuffer, profile: Profile, flow: Flow, canSendItems: bool, fromSeq: nat)
      modifies buffer
      ensures this.buffer == buffer && this.profile == profile && this.canSendItems == canSendItems
      ensures View() == Start(buffer.runId, flow, fromSeq)
      ensures buffer.View() == HoldUnpersisted(old(buffer.View()))
    {
      this.buffer, this.profile, this.flow, this.canSendItems := buffer, profile, flow, canSendItems;
      cursor, header, isWaiting, held, heldBytes, panel := fromSeq, false, false, [], 0, [];
      outbox, itemsSent, inFlight, lastThroughSeq, handedOver := [], 0, [], -1, 0;
      simTick, simTime, persistedAt, sent := 0, 0.0, None, [];
      new;
      buffer.Hold();
    }

    method Backlog() returns (records: nat, bytes: nat)
      ensures records == BacklogRecords(View()) && bytes == BacklogBytes(View())
    {
      records, bytes := |held|, heldBytes;
      for i := 0 to |inFlight|
        invariant records + InFlightRecords(inFlight[i..]) == BacklogRecords(View())
        invariant bytes + InFlightBytes(inFlight[i..]) == BacklogBytes(View())
      {
        assert inFlight[i..][1..] == inFlight[i + 1..];
        records, bytes := records + inFlight[i].records, bytes + inFlight[i].bytes;
      }
    }

    method RefreshWaiting()
      modifies this`isWaiting
      ensures View() == UpdateWaiting(old(View()))
    {
      var n, b := Backlog();
      if !isWaiting { isWaiting := n >= flow.highRecords || b >= flow.highBytes; }
      else if n <= flow.lowRecords && b <= flow.lowBytes { isWaiting := false; }
    }

    method DispatchOne(item: Item)
      modifies this`itemsSent, this`sent
      ensures View() == Dispatch(old(View()), [item])
    {
      itemsSent := itemsSent + 1;
      sent := sent + [ItemMsg(item)];
      assert ItemMessages([item]) == [ItemMsg(item)];
    }

    method FlushHeld()
      modifies this`held, this`heldBytes, this`itemsSent, this`inFlight, this`sent, this`persistedAt
      ensures View() == Flush(old(View()))
    {
      hide InFlightRecords, InFlightBytes;
      var records := held;
      if |records| == 0 && |inFlight| == 0 && itemsSent == 0 {
        if persistedAt.Some? {
          persistedAt := Some(persistedAt.value.(tick := simTick, simTime := simTime));
        }
        return;
      }
      held := [];
      itemsSent := 0;
      inFlight := inFlight + [InFlight(lastThroughSeq, |records|, heldBytes)];
      heldBytes := 0;
      sent := sent + [BatchMsg(records, Head(buffer.runId, lastThroughSeq, simTick, simTime))];
    }

    method OnHeaderStored()
      modifies this
      ensures View() == HeaderStored(old(View()))
    {
      if header { return; }
      header := true;
      var items := outbox;
      outbox := [];
      ghost var r0 := View();
      for i := 0 to |items|
        invariant View() == Dispatch(r0, items[..i])
      {
        DispatchOne(items[i]);
        assert ItemMessages(items[..i]) + ItemMessages([items[i]]) == ItemMessages(items[..i + 1]);
      }
      assert items[..|items|] == items;
      FlushHeld();
      RefreshWaiting();
    }

    method OnEnqueue(item: Item) returns (r: Result<(), RecorderError>)
      modifies this
      ensures r.Ok? <==> canSendItems
      ensures View() == if canSendItems then Enqueue(old(View()), item) else old(View())
    {
      if !canSendItems { return Err(NoItemChannel); }
      heldBytes := heldBytes + item.bytes;
      if header { DispatchOne(item); } else { outbox := outbox + [item]; }
      RefreshWaiting();
      return Ok(());
    }

    // Takes one record the run emitted, as far as the profile keeps it.
    method Take(r: TraceRecord)
      modifies this`held, this`handedOver, this`heldBytes, this`panel
      ensures View() == Add(profile, old(View()), KeptOne(profile, r))
    {
      var kept := profile.keep(r);
      AddNothing(profile, View());
      if kept.Some? {
        var safe := kept.value;
        AddOne(profile, View(), safe);
        held := held + [safe];
        handedOver := handedOver + 1;
        heldBytes := heldBytes + profile.weight(safe);
        if !profile.isPose(safe) { panel := panel + [safe]; }
      }
    }

    method GatherAll(news: seq<TraceRecord>)
      modifies this`cursor, this`lastThroughSeq, this`held, this`handedOver, this`heldBytes, this`panel
      ensures View() == Gather(profile, old(View()), news)
    {
      if |news| == 0 { return; }
      cursor, lastThroughSeq := news[|news| - 1].seqNo + 1, news[|news| - 1].seqNo;
      ghost var r1 := View();
      AddNothing(profile, r1);
      hide Add, Kept, KeptOne;
      for i := 0 to |news|
        invariant View() == Add(profile, r1, Kept(profile, news[..i]))
      {
        Take(news[i]);
        KeptSnoc(profile, news, i);
        AddTwice(profile, r1, Kept(profile, news[..i]), KeptOne(profile, news[i]));
      }
      assert news[..|news|] == news;
    }

    method OnCollect(tick: nat, time: real)
      modifies this
      ensures View() == Collect(profile, old(View()), Since(buffer.View(), old(cursor)), tick, time)
      ensures buffer.View() == old(buffer.View())
    {
      hide Gather, Flush, UpdateWaiting, Since;
      simTick, simTime := tick, time;
      var news := buffer.ReadSince(cursor);
      GatherAll(news);
      if header { FlushHeld(); }
      RefreshWaiting();
    }

    method OnPersisted(head: Head)
      modifies this, buffer
      ensures View() == Persisted(old(View()), head)
      ensures buffer.View() ==
        if Accepts(old(View()), head) then MarkPersisted(old(buffer.View()), head.throughSeq) else old(buffer.View())
    {
      if head.runId != buffer.runId { return; }
      if persistedAt.Some? && head.tick < persistedAt.value.tick { return; }
      ghost var r0 := View();
      while |inFlight| > 0 && inFlight[0].throughSeq <= head.throughSeq
        invariant View() == r0.(inFlight := inFlight)
        invariant Release(inFlight, head.throughSeq) == Release(r0.inFlight, head.throughSeq)
        invariant buffer.View() == old(buffer.View())
        decreases |inFlight|
      {
        inFlight := inFlight[1..];
      }
      buffer.Mark(head.throughSeq);
      persistedAt := Some(head);
      RefreshWaiting();
    }

    method OnTakePanel() returns (out: seq<TraceRecord>)
      modifies this`panel
      ensures out == old(panel) && View() == TakePanel(old(View()))
    {
      out := panel;
      panel := [];
    }
  }

  lemma KeptSnoc(p: Profile, rs: seq<TraceRecord>, i: nat)
    requires i < |rs|
    ensures Kept(p, rs[..i + 1]) == Kept(p, rs[..i]) + KeptOne(p, rs[i])
  {
    assert rs[..i + 1] == rs[..i] + [rs[i]];
    KeptConcat(p, rs[..i], [rs[i]]);
    assert Kept(p, [rs[i]]) == KeptOne(p, rs[i]) + Kept(p, []);
  }
}
