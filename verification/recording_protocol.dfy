// What holds in every state a recorded run can reach (packages/trace/src/recorder.ts and trace-buffer.ts, with a store behind a
// channel): exactly once in order, the saved head, flow control.
module RecordingProtocol {
  import opened Wrappers
  import opened Trace
  import opened TraceCache
  import opened Recording
  import opened RecordingSystem

  // ---- whole runs --------------------------------------------------------------------------------------------------------

  ghost predicate Runs(p: Profile, s: System, steps: seq<Step>)
    decreases |steps|
  {
    steps == [] || (Enabled(s, steps[0]) && Runs(p, Next(p, s, steps[0]), steps[1..]))
  }

  ghost function After(p: Profile, s: System, steps: seq<Step>): System
    requires Runs(p, s, steps)
    decreases |steps|
  {
    if steps == [] then s else After(p, Next(p, s, steps[0]), steps[1..])
  }

  ghost predicate Reachable(p: Profile, s: System) {
    exists s0: System, fromSeq: nat, steps: seq<Step> ::
      Init(s0, fromSeq) && Runs(p, s0, steps) && After(p, s0, steps) == s
  }

  lemma {:induction false} AfterKeeps(p: Profile, s: System, steps: seq<Step>)
    requires Inv(p, s) && Runs(p, s, steps)
    ensures Inv(p, After(p, s, steps))
    decreases |steps|
  {
    hide Inv, Next, Enabled;
    if steps != [] {
      StepKeeps(p, s, steps[0]);
      AfterKeeps(p, Next(p, s, steps[0]), steps[1..]);
    }
  }

  lemma ReachableInv(p: Profile, s: System)
    requires Reachable(p, s)
    ensures Inv(p, s)
  {
    hide Inv, Init, Runs, After;
    var s0: System, fromSeq: nat, steps: seq<Step> :| Init(s0, fromSeq) && Runs(p, s0, steps) && After(p, s0, steps) == s;
    InitEstablishes(p, s0, fromSeq);
    AfterKeeps(p, s0, steps);
  }

  // Exactly once, in order: what is stored, under way, held and not gathered yet is together just what the profile keeps
  // of everything emitted from the recorder's first seq on; the same for the panel and for the items.
  lemma ExactlyOnceInOrder(p: Profile, s: System)
    requires Reachable(p, s)
    ensures s.committed <= |s.rec.sent| && s.rec.cursor <= PosOf(s)
    ensures s.store + RecordsOf(s.rec.sent[s.committed..]) + s.rec.held + Kept(p, Since(s.cache, s.rec.cursor))
         == Kept(p, From(s.log, s.base, s.origin))
    ensures s.panelTaken + s.rec.panel + NotPoses(p, Kept(p, Since(s.cache, s.rec.cursor)))
         == NotPoses(p, Kept(p, From(s.log, s.base, s.origin)))
    ensures s.storedItems + ItemsOf(s.rec.sent[s.committed..]) + s.rec.outbox == s.enqueued
  {
    hide Reachable, CursorInv, HeadsInv, AllCover, ReportInv, FlightInv, OrderInv, WaitInv, HeldInv, Since, From, Span;
    ReachableInv(p, s);
    var r := s.rec;
    CollectSeesAll(s.base, s.heldFrom, s.origin, s.log, s.cache, r.runId, r.cursor, r.lastThroughSeq);
    var news := Since(s.cache, r.cursor);
    assert From(s.log, s.base, s.origin) == GatheredOf(s) + news by { SpanExtends(s.log, s.base, s.origin, PosOf(s)); }
    KeptConcat(p, GatheredOf(s), news);
    NotPosesConcat(p, Kept(p, GatheredOf(s)), Kept(p, news));
    MessagesSplit(r.sent, s.committed);
    hide Kept, NotPoses, RecordsOf, ItemsOf, BatchesOf;
  }

  // Whatever a report the recorder took says is saved, is in the store; and the report is of a batch storage committed.
  lemma ReportedIsStored(p: Profile, s: System, h: Head)
    requires Reachable(p, s) && s.rec.persistedAt == Some(h)
    ensures Kept(p, Span(s.log, s.base, s.origin, h.throughSeq + 1)) <= s.store
  {
    hide Reachable, CursorInv, RecordsInv, OrderInv, HeadsInv, AllCover, WaitInv, HeldInv, Span, Kept, BatchesOf, RecordsOf, Aligned;
    ReachableInv(p, s);
    CoveredIsStored(p, s.base, s.origin, s.log, s.rec.sent, s.committed, s.lastReport);
  }

  lemma CoveredIsStored(p: Profile, base: nat, origin: nat, log: seq<TraceRecord>, sent: seq<Message>, committed: nat, a: nat)
    requires AllCover(p, base, origin, log, BatchesOf(sent))
    requires committed <= |sent| && a < |BatchesOf(sent[..committed])|
    ensures a < |BatchesOf(sent)|
    ensures Kept(p, Span(log, base, origin, BatchesOf(sent)[a].head.throughSeq + 1)) <= RecordsOf(sent[..committed])
  {
    hide Span, Kept, BatchesOf, RecordsOf;
    var bs, done := BatchesOf(sent), BatchesOf(sent[..committed]);
    MessagesSplit(sent, committed);
    assert Covers(p, base, origin, log, bs, a);
    assert bs[..a + 1] == done[..a + 1];
    assert done == done[..a + 1] + done[a + 1..];
    MessagesConcat(done[..a + 1], done[a + 1..]);
    RecordsOfBatches(sent[..committed]);
  }

  // The kept records handed over or held that no report released yet.
  ghost function Unsaved(r: Recorder): seq<TraceRecord> {
    var bs := BatchesOf(r.sent);
    (if |r.inFlight| <= |bs| then RecordsOf(bs[|bs| - |r.inFlight|..]) else []) + r.held
  }

  lemma {:induction false} CountFlight(bs: seq<Message>, fs: seq<InFlight>)
    requires |bs| == |fs| && forall i :: 0 <= i < |fs| ==> SameBatch(bs[i], fs[i])
    ensures InFlightRecords(fs) == |RecordsOf(bs)|
  {
    if fs != [] {
      forall i | 0 <= i < |fs| - 1 ensures SameBatch(bs[1..][i], fs[1..][i]) {
        assert SameBatch(bs[i + 1], fs[i + 1]);
      }
      CountFlight(bs[1..], fs[1..]);
      assert SameBatch(bs[0], fs[0]);
    }
  }

  lemma BacklogCounts(r: Recorder)
    requires Aligned(BatchesOf(r.sent), r.inFlight)
    ensures BacklogRecords(r) == |Unsaved(r)|
  {
    hide RecordsOf, BatchesOf, InFlightRecords;
    var bs := BatchesOf(r.sent);
    var k := |bs| - |r.inFlight|;
    assert forall i :: 0 <= i < |r.inFlight| ==> bs[k..][i] == bs[k + i];
    CountFlight(bs[k..], r.inFlight);
  }

  // The batches no longer in flight hold just what is kept up to the saved head.
  lemma ReleasedAreSaved(p: Profile, s: System, bs: seq<Message>)
    requires FlightInv(bs, s.rec.inFlight, s.rec.persistedAt, s.lastReport, s.rec.runId, s.rec.simTick)
    requires AllCover(p, s.base, s.origin, s.log, bs)
    ensures RecordsOf(bs[..|bs| - |s.rec.inFlight|]) == Kept(p, Span(s.log, s.base, s.origin, SavedBefore(s)))
  {
    hide Span, Kept, RecordsOf, Aligned;
    var k := |bs| - |s.rec.inFlight|;
    if s.rec.persistedAt.Some? {
      assert Covers(p, s.base, s.origin, s.log, bs, k - 1);
    } else {
      NothingYet(p, s.log, s.base, s.origin);
      assert bs[..k] == [];
    }
  }

  lemma NothingYet(p: Profile, log: seq<TraceRecord>, base: nat, at: int)
    ensures RecordsOf([]) == Kept(p, Span(log, base, at, at)) == []
  {
  }

  // Every kept record below this seq is saved: one past the saved head, or where gathering began.
  function SavedBefore(s: System): int {
    if s.rec.persistedAt.Some? then s.rec.persistedAt.value.throughSeq + 1 else s.origin
  }

  // Flow control's backlog is exactly what is gathered, kept and above the saved head, even when batches share a seq.
  lemma BacklogExact(p: Profile, s: System)
    requires Reachable(p, s)
    ensures Kept(p, Span(s.log, s.base, s.origin, SavedBefore(s))) + Unsaved(s.rec) == Kept(p, GatheredOf(s))
    ensures BacklogRecords(s.rec) == |Unsaved(s.rec)|
  {
    hide *;
    ReachableInv(p, s);
    CoreFacts(p, s);
    BacklogCounts(s.rec);
    ReleasedAreSaved(p, s, BatchesOf(s.rec.sent));
    UnsavedFollow(s.rec, Kept(p, Span(s.log, s.base, s.origin, SavedBefore(s))));
  }

  // What was released and what is not saved yet make up what was gathered.
  lemma UnsavedFollow(r: Recorder, released: seq<TraceRecord>)
    requires Aligned(BatchesOf(r.sent), r.inFlight) && |r.inFlight| <= |BatchesOf(r.sent)|
    requires RecordsOf(BatchesOf(r.sent)[..|BatchesOf(r.sent)| - |r.inFlight|]) == released
    ensures released + Unsaved(r) == RecordsOf(r.sent) + r.held
  {
    hide Aligned, BatchesOf, RecordsOf;
    var bs := BatchesOf(r.sent);
    var k := |bs| - |r.inFlight|;
    RecordsOfBatches(r.sent);
    MessagesConcat(bs[..k], bs[k..]);
    assert bs[..k] + bs[k..] == bs;
    Regroup(RecordsOf(bs[..k]), RecordsOf(bs[k..]), r.held);
  }

  lemma CoreFacts(p: Profile, s: System)
    requires Inv(p, s)
    ensures var r, bs := s.rec, BatchesOf(s.rec.sent);
      && FlightInv(bs, r.inFlight, r.persistedAt, s.lastReport, r.runId, r.simTick)
      && Aligned(bs, r.inFlight) && |r.inFlight| <= |bs|
      && AllCover(p, s.base, s.origin, s.log, bs)
      && HeadsInv(bs, r.runId, r.lastThroughSeq, r.simTick)
      && RecordsOf(r.sent) + r.held == Kept(p, GatheredOf(s))
  {
    hide CursorInv, OrderInv, WaitInv, HeldInv, StoreInv, ReportInv, AllCover, HeadsInv, Kept, NotPoses, BatchesOf, Aligned;
  }

  // The wait follows the marks in every reachable state.
  lemma WaitFollowsMarks(p: Profile, s: System)
    requires Reachable(p, s)
    ensures !s.rec.waiting ==> BacklogRecords(s.rec) < s.rec.flow.highRecords && BacklogBytes(s.rec) < s.rec.flow.highBytes
    ensures s.rec.waiting ==> BacklogRecords(s.rec) > s.rec.flow.lowRecords || BacklogBytes(s.rec) > s.rec.flow.lowBytes
  {
    hide Reachable, Core;
    ReachableInv(p, s);
  }

  // ---- a wait ends -------------------------------------------------------------------------------------------------------

  ghost predicate StorageOnly(steps: seq<Step>) { forall i :: 0 <= i < |steps| ==> steps[i].Commit? || steps[i].Report? }

  // Storage has something to commit, or a report is under way.
  ghost predicate StorageCanMove(s: System) { Enabled(s, Commit(1)) || Enabled(s, Report) }

  ghost predicate Collected(s: System) { s.rec.held == [] && s.rec.heldBytes == 0 }

  ghost predicate NothingWaits(r: Recorder) { !r.waiting && BacklogRecords(r) == 0 && BacklogBytes(r) == 0 }

  // How many steps storage can still take.
  function StorageWork(s: System): int { 2 * (|s.rec.sent| - s.committed) + |s.reports| }

  lemma StorageStep(p: Profile, s: System, step: Step)
    requires Inv(p, s) && Enabled(s, step) && Collected(s) && (step.Commit? || step.Report?)
    ensures Collected(Next(p, s, step)) && StorageWork(Next(p, s, step)) < StorageWork(s)
  {
    hide Inv;
    if step.Report? {
      var head := BatchesOf(s.rec.sent)[s.reports[0]].head;
      assert Persisted(s.rec, head).held == s.rec.held && Persisted(s.rec, head).heldBytes == s.rec.heldBytes
          && Persisted(s.rec, head).sent == s.rec.sent;
    }
  }

  lemma AtRest(p: Profile, s: System)
    requires Inv(p, s) && Collected(s) && !StorageCanMove(s)
    ensures NothingWaits(s.rec)
  {
    hide CursorInv, RecordsInv, AllCover, HeadsInv, StoreInv, OrderInv, BatchesOf;
    assert s.rec.sent[..s.committed] == s.rec.sent;
    assert s.reports == [];
    assert s.rec.inFlight == [];
  }

  lemma {:induction false} StorageDrains(p: Profile, s: System, steps: seq<Step>)
    requires Inv(p, s) && Collected(s) && StorageOnly(steps) && Runs(p, s, steps)
    ensures var t := After(p, s, steps);
      && |steps| <= StorageWork(s)
      && (StorageCanMove(t) || NothingWaits(t.rec))
    decreases |steps|
  {
    hide Inv, Next, Enabled, Collected, StorageWork, NothingWaits;
    if steps == [] {
      if !StorageCanMove(s) { AtRest(p, s); }
      WorkIsCounted(p, s);
    } else {
      StepKeeps(p, s, steps[0]);
      StorageStep(p, s, steps[0]);
      StorageDrains(p, Next(p, s, steps[0]), steps[1..]);
    }
  }

  lemma WorkIsCounted(p: Profile, s: System)
    requires Inv(p, s)
    ensures StorageWork(s) >= 0
  {
    hide CursorInv, RecordsInv, AllCover, HeadsInv, FlightInv, ReportInv, OrderInv, BatchesOf;
  }

  // No wait without an end: with the header stored, after a collect storage alone ends it. However storage groups its
  // commits it takes a bounded number of steps, and while one of them is not taken it can be; then nothing waits.
  lemma WaitEnds(p: Profile, s: System, tick: nat, time: real, steps: seq<Step>)
    requires Reachable(p, s) && s.rec.header && tick >= s.rec.simTick
    requires StorageOnly(steps) && Runs(p, Next(p, s, DoCollect(tick, time)), steps)
    ensures var s1 := Next(p, s, DoCollect(tick, time));
      var t := After(p, s1, steps);
      && |steps| <= StorageWork(s1)
      && (StorageCanMove(t) || NothingWaits(t.rec))
  {
    hide Inv, Next, Reachable, Runs, After, NothingWaits, StorageCanMove, StorageWork, StorageOnly;
    ReachableInv(p, s);
    CollectKeeps(p, s, tick, time);
    StorageDrains(p, Next(p, s, DoCollect(tick, time)), steps);
  }

  // The collect is needed: an item given after the last one weighs on the backlog, and nothing storage does frees it.
  lemma ItemWaitsForCollect(p: Profile, s: System, item: Item)
    requires Reachable(p, s) && s.rec.header && Collected(s) && !StorageCanMove(s)
    requires item.bytes >= s.rec.flow.highBytes && Enabled(s, DoEnqueue(item))
    ensures var s1 := Next(p, s, DoEnqueue(item));
      && Enabled(s1, Commit(1))
      && var s2 := Next(p, s1, Commit(1)); s2.rec.waiting && !StorageCanMove(s2)
  {
    hide Reachable, CursorInv, RecordsInv, AllCover, HeadsInv, StoreInv, FlightInv, ReportInv, OrderInv, WaitInv, InFlightBytes, InFlightRecords;
    ReachableInv(p, s);
    CommittedAll(s);
    var s1 := Next(p, s, DoEnqueue(item));
    ItemMessagesAre([item]);
    assert s1.rec.sent[s.committed..s.committed + 1] == ItemMessages([item]);
  }

  lemma CommittedAll(s: System)
    requires !StorageCanMove(s) && StoreInv(s.rec.sent, s.rec.outbox, s.committed, s.store, s.storedItems, s.enqueued)
    requires ReportInv(s.rec.sent, s.committed, s.reports, s.lastReport)
    ensures s.committed == |s.rec.sent| && s.reports == []
  {
    assert s.rec.sent[..s.committed] == s.rec.sent;
  }

  // Item bytes are not exact: a batch that only follows an item shares its seq with the batch before it, and the report
  // of that one releases both. Here the second item is still unsaved and the backlog says nothing is.
  lemma ItemBytesReleasedEarly(p: Profile, flow: Flow, a: Item, b: Item)
    ensures var r1 := HeaderStored(Start("run-000001", flow, 0));
      var r2 := Collect(p, Enqueue(r1, a), [], 1, 0.1);
      var r3 := Collect(p, Enqueue(r2, b), [], 2, 0.2);
      && |r3.sent| == 4 && r3.sent[1].BatchMsg? && r3.sent[3].BatchMsg?
      && BacklogBytes(r3) == a.bytes + b.bytes
      && BacklogBytes(Persisted(r3, r3.sent[1].head)) == 0
  {
    FreshRecorder("run-000001", flow);
    hide HeaderStored, Start, Collect, Enqueue;
    var r1 := HeaderStored(Start("run-000001", flow, 0));
    ItemRound(p, r1, a, 1, 0.1);
    var r2 := Collect(p, Enqueue(r1, a), [], 1, 0.1);
    ItemRound(p, r2, b, 2, 0.2);
    ReleasePair(Collect(p, Enqueue(r2, b), [], 2, 0.2), a.bytes, b.bytes);
  }

  lemma FreshRecorder(runId: string, flow: Flow)
    ensures var r := HeaderStored(Start(runId, flow, 0));
      && r.header && r.held == [] && r.heldBytes == 0 && r.lastThroughSeq == -1 && r.runId == runId
      && r.persistedAt == None && r.inFlight == [] && r.sent == []
  {
  }

  lemma ReleasePair(r: Recorder, a: nat, b: nat)
    requires r.inFlight == [InFlight(-1, 0, a), InFlight(-1, 0, b)] && r.heldBytes == 0 && r.persistedAt == None
    ensures BacklogBytes(r) == a + b
    ensures forall h: Head :: h.runId == r.runId && h.throughSeq == -1 ==> BacklogBytes(Persisted(r, h)) == 0
  {
    assert r.inFlight[1..] == [InFlight(-1, 0, b)];
    assert InFlightBytes(r.inFlight[1..]) == b;
    assert Release(r.inFlight[1..], -1) == [];
    forall h: Head | h.runId == r.runId && h.throughSeq == -1 ensures BacklogBytes(Persisted(r, h)) == 0 {
      WaitingKeepsBytes(r.(inFlight := [], persistedAt := Some(h)));
    }
  }

  lemma WaitingKeepsBytes(r: Recorder)
    ensures BacklogBytes(UpdateWaiting(r)) == BacklogBytes(r)
  {
  }

  // An item, then a collect that finds no record: the item and a batch without records go out.
  lemma ItemRound(p: Profile, r: Recorder, item: Item, tick: nat, time: real)
    requires r.header && r.held == [] && r.heldBytes == 0 && r.lastThroughSeq == -1
    ensures var r' := Collect(p, Enqueue(r, item), [], tick, time);
      && r'.header && r'.held == [] && r'.heldBytes == 0 && r'.lastThroughSeq == -1
      && r'.runId == r.runId && r'.persistedAt == r.persistedAt
      && r'.inFlight == r.inFlight + [InFlight(-1, 0, item.bytes)]
      && r'.sent == r.sent + [ItemMsg(item), BatchMsg([], Head(r.runId, -1, tick, time))]
  {
    assert ItemMessages([item]) == [ItemMsg(item)];
    hide InFlightRecords, InFlightBytes;
  }

  // An item is stored no later than the first batch that covers the record it belongs to.
  lemma ItemsBeforeTheirRecords(p: Profile, s: System, i: nat, j: nat)
    requires Reachable(p, s) && i < |s.rec.sent| && j < |s.rec.sent|
    requires s.rec.sent[i].BatchMsg? && s.rec.sent[j].ItemMsg? && s.rec.sent[j].item.refersFrom.Some?
    requires s.rec.sent[i].head.throughSeq >= s.rec.sent[j].item.refersFrom.value
    ensures j < i && (i < s.committed ==> j < s.committed)
  {
    hide Reachable, CursorInv, RecordsInv, AllCover, HeadsInv, StoreInv, FlightInv, ReportInv, WaitInv;
    ReachableInv(p, s);
    assert i < j ==> InOrder(s.rec.sent[i], s.rec.sent[j]);
  }
}
