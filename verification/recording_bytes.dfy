// The bytes of the recorder's backlog (packages/trace/src/recorder.ts), in runs with items too.
module RecordingBytes {
  import opened Wrappers
  import opened Trace
  import opened TraceCache
  import opened Recording
  import opened RecordingSystem
  import opened RecordingProtocol

  function ItemBytes(items: seq<Item>): nat { if items == [] then 0 else ItemBytes(items[..|items| - 1]) + items[|items| - 1].bytes }

  // The items sent with just `i` batches before them: they weigh on the next batch.
  function ItemsWith(ms: seq<Message>, i: nat): seq<Item> {
    if ms == [] then []
    else
      var before, m := ms[..|ms| - 1], ms[|ms| - 1];
      ItemsWith(before, i) + if m.ItemMsg? && |BatchesOf(before)| == i then [m.item] else []
  }

  // The items sent behind the first `k` batches.
  function ItemsBehind(ms: seq<Message>, k: nat): seq<Item> {
    if ms == [] then []
    else
      var before, m := ms[..|ms| - 1], ms[|ms| - 1];
      ItemsBehind(before, k) + if m.ItemMsg? && |BatchesOf(before)| >= k then [m.item] else []
  }

  // What each batch weighs with the items sent since the one before it, and what the items behind the last batch weigh.
  function Loads(p: Profile, ms: seq<Message>): seq<nat> {
    if ms == [] then []
    else
      var before, m := ms[..|ms| - 1], ms[|ms| - 1];
      Loads(p, before) + if m.BatchMsg? then [Rest(before) + Weight(p, m.records)] else []
  }

  function Rest(ms: seq<Message>): nat {
    if ms == [] || ms[|ms| - 1].BatchMsg? then 0 else Rest(ms[..|ms| - 1]) + ms[|ms| - 1].item.bytes
  }

  function Sum(xs: seq<nat>): nat { if xs == [] then 0 else Sum(xs[..|xs| - 1]) + xs[|xs| - 1] }

  lemma Pop(ms: seq<Message>, m: Message)
    ensures (ms + [m])[..|ms + [m]| - 1] == ms && (ms + [m])[|ms + [m]| - 1] == m
    ensures BatchesOf(ms + [m]) == BatchesOf(ms) + if m.BatchMsg? then [m] else []
  {
    MessagesConcat(ms, [m]);
    assert BatchesOf([m]) == if m.BatchMsg? then [m] else [];
  }

  lemma LoadsMore(p: Profile, ms: seq<Message>, m: Message)
    ensures Loads(p, ms + [m]) == Loads(p, ms) + if m.BatchMsg? then [Rest(ms) + Weight(p, m.records)] else []
    ensures Rest(ms + [m]) == if m.BatchMsg? then 0 else Rest(ms) + m.item.bytes
    ensures forall i: nat :: ItemsWith(ms + [m], i) == ItemsWith(ms, i) + if m.ItemMsg? && |BatchesOf(ms)| == i then [m.item] else []
    ensures forall k: nat :: ItemsBehind(ms + [m], k) == ItemsBehind(ms, k) + if m.ItemMsg? && |BatchesOf(ms)| >= k then [m.item] else []
  {
    Pop(ms, m);
    hide BatchesOf, Weight;
  }

  lemma {:induction false} LoadsCount(p: Profile, ms: seq<Message>)
    ensures |Loads(p, ms)| == |BatchesOf(ms)|
    ensures forall i :: i > |BatchesOf(ms)| ==> ItemsWith(ms, i) == []
  {
    hide BatchesOf, Weight;
    if ms == [] {
      assert BatchesOf([]) == [] by { NoBatches(); }
    } else {
      var before, m := ms[..|ms| - 1], ms[|ms| - 1];
      assert ms == before + [m];
      Pop(before, m);
      LoadsCount(p, before);
      LoadsMore(p, before, m);
    }
  }

  lemma NoBatches()
    ensures BatchesOf([]) == []
  {
  }

  // ---- the invariant -------------------------------------------------------------------------------------------------------

  // What is counted for each batch under way, and for what is held, is what it weighs with its items.
  ghost predicate BytesInv(p: Profile, r: Recorder) {
    && |r.inFlight| <= |Loads(p, r.sent)|
    && (forall i :: 0 <= i < |r.inFlight| ==> r.inFlight[i].bytes == Loads(p, r.sent)[|Loads(p, r.sent)| - |r.inFlight| + i])
    && r.heldBytes == Rest(r.sent) + Weight(p, r.held) + ItemBytes(r.outbox)
  }

  // An item refers to a record that was emitted when it was given; it is sent behind every batch up to that record, and the next
  // batch, but for the first of all, covers it.
  ghost predicate Placed(x: Item, i: nat, bs: seq<Message>, origin: nat, next: int) {
    && (forall k :: 0 <= k < |bs| ==> bs[k].BatchMsg?)
    && (x.refersFrom.Some? ==>
          && origin <= x.refersFrom.value < next
          && (1 <= i <= |bs| ==> bs[i - 1].head.throughSeq < x.refersFrom.value)
          && (1 <= i < |bs| ==> x.refersFrom.value <= bs[i].head.throughSeq))
  }

  ghost predicate ItemsInv(sent: seq<Message>, outbox: seq<Item>, origin: nat, next: int) {
    && (forall i: nat, x :: x in ItemsWith(sent, i) ==> Placed(x, i, BatchesOf(sent), origin, next))
    && (forall x :: x in outbox ==> Placed(x, 0, [], origin, next))
  }

  ghost predicate LoadInv(p: Profile, s: System) {
    BytesInv(p, s.rec) && ItemsInv(s.rec.sent, s.rec.outbox, s.origin, s.cache.next)
  }

  // ---- each step keeps it ------------------------------------------------------------------------------------------------------

  lemma ItemBytesMore(items: seq<Item>, x: Item)
    ensures ItemBytes(items + [x]) == ItemBytes(items) + x.bytes
  {
    assert (items + [x])[..|items|] == items;
  }

  lemma {:induction false} RestOfItems(items: seq<Item>)
    ensures Rest(ItemMessages(items)) == ItemBytes(items) && BatchesOf(ItemMessages(items)) == []
    ensures forall p: Profile :: Loads(p, ItemMessages(items)) == []
    ensures forall i: nat :: ItemsWith(ItemMessages(items), i) == if i == 0 then items else []
  {
    hide Weight;
    if items != [] {
      var before, x := items[..|items| - 1], items[|items| - 1];
      RestOfItems(before);
      assert ItemMessages(items) == ItemMessages(before) + [ItemMsg(x)];
      Pop(ItemMessages(before), ItemMsg(x));
      hide BatchesOf;
      assert items == before + [x];
    }
  }

  lemma AddBytes(p: Profile, r: Recorder, kept: seq<TraceRecord>)
    requires BytesInv(p, r)
    ensures BytesInv(p, Add(p, r, kept))
  {
    WeightConcat(p, r.held, kept);
    hide Weight, Loads, Rest, ItemBytes;
  }

  lemma GatherBytes(p: Profile, r: Recorder, news: seq<TraceRecord>)
    requires BytesInv(p, r)
    ensures BytesInv(p, Gather(p, r, news)) && Gather(p, r, news).sent == r.sent && Gather(p, r, news).outbox == r.outbox
  {
    if news != [] {
      var last := news[|news| - 1].seqNo;
      AddBytes(p, r.(cursor := last + 1, lastThroughSeq := last), Kept(p, news));
    }
    hide BytesInv, Kept, Weight;
  }

  lemma FlushBytes(p: Profile, r: Recorder)
    requires BytesInv(p, r) && r.outbox == []
    ensures BytesInv(p, Flush(r))
  {
    hide Weight, Loads, Rest;
    var m := BatchMsg(r.held, Head(r.runId, r.lastThroughSeq, r.simTick, r.simTime));
    LoadsMore(p, r.sent, m);
    WeightOfNone(p);
  }

  lemma WeightOfNone(p: Profile)
    ensures Weight(p, []) == 0 && ItemBytes([]) == 0
  {
  }

  lemma WaitingBytes(p: Profile, r: Recorder)
    ensures BytesInv(p, UpdateWaiting(r)) == BytesInv(p, r)
    ensures UpdateWaiting(r).sent == r.sent && UpdateWaiting(r).outbox == r.outbox
  {
    hide Weight, Loads, Rest, ItemBytes, BacklogRecords, BacklogBytes;
  }

  // A batch that covers all that was emitted covers what the items before it refer to.
  lemma FlushItems(sent: seq<Message>, m: Message, origin: nat, next: int)
    requires ItemsInv(sent, [], origin, next) && m.BatchMsg?
    requires BatchesOf(sent) != [] ==> next <= m.head.throughSeq + 1 || next <= origin
    ensures ItemsInv(sent + [m], [], origin, next)
  {
    LoadsMore(PLAIN, sent, m);
    Pop(sent, m);
    LoadsCount(PLAIN, sent);
    hide BatchesOf, ItemsWith, PLAIN, Loads;
    var bs := BatchesOf(sent);
    forall i: nat, x | x in ItemsWith(sent + [m], i) ensures Placed(x, i, BatchesOf(sent + [m]), origin, next) {
      assert ItemsWith(sent + [m], i) == ItemsWith(sent, i) + [];
      assert x in ItemsWith(sent, i) && i <= |bs|;
      assert Placed(x, i, bs, origin, next);
    }
  }

  // A profile that keeps nothing, for lemmas that are not about one.
  const PLAIN := Profile(r => None, r => 0, r => false)

  lemma SendItem(sent: seq<Message>, x: Item, origin: nat, next: int)
    requires ItemsInv(sent, [], origin, next)
    requires forall k :: 0 <= k < |BatchesOf(sent)| ==> BatchesOf(sent)[k].BatchMsg?
    requires x.refersFrom.Some? ==> origin <= x.refersFrom.value < next
    requires x.refersFrom.Some? && BatchesOf(sent) != [] ==>
      BatchesOf(sent)[|BatchesOf(sent)| - 1].head.throughSeq < x.refersFrom.value
    ensures ItemsInv(sent + [ItemMsg(x)], [], origin, next)
  {
    var m := ItemMsg(x);
    LoadsMore(PLAIN, sent, m);
    Pop(sent, m);
    LoadsCount(PLAIN, sent);
    hide BatchesOf, ItemsWith, PLAIN, Loads;
    var bs := BatchesOf(sent);
    assert BatchesOf(sent + [m]) == bs;
    forall i: nat, y | y in ItemsWith(sent + [m], i) ensures Placed(y, i, bs, origin, next) {
      if y in ItemsWith(sent, i) { assert Placed(y, i, bs, origin, next); }
    }
  }

  lemma ItemsLater(sent: seq<Message>, outbox: seq<Item>, origin: nat, next: int, next': int)
    requires ItemsInv(sent, outbox, origin, next) && next <= next'
    ensures ItemsInv(sent, outbox, origin, next')
  {
    hide BatchesOf, ItemsWith;
    forall i: nat, x | x in ItemsWith(sent, i) ensures Placed(x, i, BatchesOf(sent), origin, next') {
      assert Placed(x, i, BatchesOf(sent), origin, next);
    }
    forall x | x in outbox ensures Placed(x, 0, [], origin, next') { assert Placed(x, 0, [], origin, next); }
  }

  // After a collect everything emitted is gathered: the batch it hands over covers it.
  lemma CollectCovers(p: Profile, s: System, tick: nat, time: real)
    requires Core(p, s)
    ensures var r := Gather(p, s.rec.(simTick := tick, simTime := time), Since(s.cache, s.rec.cursor));
      s.cache.next <= r.lastThroughSeq + 1 || s.cache.next <= s.origin
  {
    hide RecordsInv, HeadsInv, AllCover, StoreInv, ReportInv, FlightInv, OrderInv, HeldInv, Kept, Weight, NotPoses, BatchesOf, Since;
    CollectSeesAll(s.base, s.heldFrom, s.origin, s.log, s.cache, s.rec.runId, s.rec.cursor, s.rec.lastThroughSeq);
    var news := From(s.log, s.base, PosOf(s));
    if news != [] { assert news[|news| - 1] == s.log[|s.log| - 1]; }
  }

  lemma CollectLoads(p: Profile, s: System, tick: nat, time: real)
    requires Inv(p, s) && LoadInv(p, s) && tick >= s.rec.simTick
    ensures LoadInv(p, Next(p, s, DoCollect(tick, time)))
  {
    hide CursorInv, RecordsInv, HeadsInv, AllCover, StoreInv, ReportInv, FlightInv, OrderInv, WaitInv, BytesInv, ItemsInv, Flush, UpdateWaiting;
    CollectCovers(p, s, tick, time);
    var r0 := s.rec.(simTick := tick, simTime := time);
    var news := Since(s.cache, s.rec.cursor);
    SameBytes(p, s.rec, r0);
    GatherBytes(p, r0, news);
    GatherKeepsHeader(p, r0, news);
    var r1 := Gather(p, r0, news);
    hide Gather, Since;
    if r1.header {
      FlushBytes(p, r1);
      FlushSends(r1);
      if Flush(r1).sent != r1.sent {
        FlushItems(r1.sent, BatchMsg(r1.held, Head(r1.runId, r1.lastThroughSeq, r1.simTick, r1.simTime)), s.origin, s.cache.next);
      }
      WaitingBytes(p, Flush(r1));
    } else {
      WaitingBytes(p, r1);
    }
  }

  lemma SameBytes(p: Profile, r: Recorder, r': Recorder)
    requires BytesInv(p, r) && r'.inFlight == r.inFlight && r'.sent == r.sent && r'.heldBytes == r.heldBytes && r'.held == r.held
    requires r'.outbox == r.outbox
    ensures BytesInv(p, r')
  {
    hide Loads, Rest, Weight, ItemBytes;
  }

  lemma FlushSends(r: Recorder)
    ensures Flush(r).outbox == r.outbox
    ensures Flush(r).sent == r.sent || Flush(r).sent == r.sent + [BatchMsg(r.held, Head(r.runId, r.lastThroughSeq, r.simTick, r.simTime))]
  {
  }

  lemma EnqueueLoads(p: Profile, s: System, item: Item)
    requires Inv(p, s) && LoadInv(p, s) && Enabled(s, DoEnqueue(item))
    ensures LoadInv(p, Next(p, s, DoEnqueue(item)))
  {
    EnqueueFacts(p, s, item);
    hide Inv, BytesInv, ItemsInv, BatchesOf, Enqueue, Placed;
    if s.rec.header { Sends(p, s.rec, item, s.origin, s.cache.next); } else { Keeps(p, s.rec, item, s.origin, s.cache.next); }
  }

  lemma Sends(p: Profile, r: Recorder, item: Item, origin: nat, next: int)
    requires BytesInv(p, r) && ItemsInv(r.sent, [], origin, next) && r.header && r.outbox == []
    requires forall k :: 0 <= k < |BatchesOf(r.sent)| ==> BatchesOf(r.sent)[k].BatchMsg?
    requires item.refersFrom.Some? ==> origin <= item.refersFrom.value < next
    requires item.refersFrom.Some? && BatchesOf(r.sent) != [] ==>
      BatchesOf(r.sent)[|BatchesOf(r.sent)| - 1].head.throughSeq < item.refersFrom.value
    ensures BytesInv(p, Enqueue(r, item)) && ItemsInv(Enqueue(r, item).sent, Enqueue(r, item).outbox, origin, next)
  {
    hide BytesInv, ItemsInv, BatchesOf, UpdateWaiting;
    assert ItemMessages([item]) == [ItemMsg(item)];
    hide ItemMessages;
    SendItem(r.sent, item, origin, next);
    SendBytes(p, r, item);
    WaitingBytes(p, Dispatch(r.(heldBytes := r.heldBytes + item.bytes), [item]));
  }

  lemma Keeps(p: Profile, r: Recorder, item: Item, origin: nat, next: int)
    requires BytesInv(p, r) && ItemsInv(r.sent, r.outbox, origin, next) && !r.header
    requires Placed(item, 0, [], origin, next)
    ensures BytesInv(p, Enqueue(r, item)) && ItemsInv(Enqueue(r, item).sent, Enqueue(r, item).outbox, origin, next)
  {
    hide BytesInv, ItemsInv, UpdateWaiting, Placed;
    OutboxBytes(p, r, item);
    OutboxItems(r.sent, r.outbox, item, origin, next);
    WaitingBytes(p, r.(heldBytes := r.heldBytes + item.bytes, outbox := r.outbox + [item]));
  }

  // What a given item refers to was emitted, and no batch covers it yet.
  lemma EnqueueFacts(p: Profile, s: System, item: Item)
    requires Inv(p, s) && Enabled(s, DoEnqueue(item))
    ensures var bs := BatchesOf(s.rec.sent);
      && (s.rec.header ==> s.rec.outbox == [])
      && (forall k :: 0 <= k < |bs| ==> bs[k].BatchMsg?)
      && (item.refersFrom.Some? ==> s.origin <= item.refersFrom.value < s.cache.next)
      && (item.refersFrom.Some? && bs != [] ==> bs[|bs| - 1].head.throughSeq < item.refersFrom.value)
      && Placed(item, 0, [], s.origin, s.cache.next)
  {
    PosPassesThrough(s);
    CoreFacts(p, s);
    PosFromOrigin(s);
    LastHead(BatchesOf(s.rec.sent), s.rec.runId, s.rec.lastThroughSeq, s.rec.simTick);
    hide CursorInv, RecordsInv, HeadsInv, AllCover, StoreInv, ReportInv, FlightInv, OrderInv, WaitInv, PosOf, Kept, GatheredOf, RecordsOf, Aligned, BatchesOf;
  }

  lemma SendBytes(p: Profile, r: Recorder, item: Item)
    requires BytesInv(p, r)
    ensures BytesInv(p, Dispatch(r.(heldBytes := r.heldBytes + item.bytes), [item]))
  {
    assert ItemMessages([item]) == [ItemMsg(item)];
    LoadsMore(p, r.sent, ItemMsg(item));
    hide Loads, Rest, Weight, ItemBytes, ItemsWith, ItemsBehind, BatchesOf, ItemMessages;
    assert Loads(p, r.sent) + [] == Loads(p, r.sent);
  }

  lemma OutboxBytes(p: Profile, r: Recorder, item: Item)
    requires BytesInv(p, r)
    ensures BytesInv(p, r.(heldBytes := r.heldBytes + item.bytes, outbox := r.outbox + [item]))
  {
    ItemBytesMore(r.outbox, item);
    hide Loads, Rest, Weight, ItemBytes;
  }

  lemma OutboxItems(sent: seq<Message>, outbox: seq<Item>, item: Item, origin: nat, next: int)
    requires ItemsInv(sent, outbox, origin, next) && Placed(item, 0, [], origin, next)
    ensures ItemsInv(sent, outbox + [item], origin, next)
  {
    hide Placed, ItemsWith, BatchesOf;
  }

  lemma PosFromOrigin(s: System)
    ensures s.origin <= PosOf(s)
  {
  }

  lemma LastHead(bs: seq<Message>, runId: string, through: int, tick: nat)
    requires HeadsInv(bs, runId, through, tick)
    ensures forall k :: 0 <= k < |bs| ==> bs[k].BatchMsg?
    ensures bs != [] ==> bs[|bs| - 1].head.throughSeq <= through
  {
  }

  lemma HeaderLoads(p: Profile, s: System)
    requires Inv(p, s) && LoadInv(p, s)
    ensures LoadInv(p, Next(p, s, DoHeaderStored))
  {
    hide Inv, BytesInv, ItemsInv, HeaderStored;
    if s.rec.header {
      Stored(s.rec);
    } else {
      HeaderFacts(p, s);
      HeaderSends(p, s.rec, s.origin, s.cache.next);
    }
  }

  lemma Stored(r: Recorder)
    requires r.header
    ensures HeaderStored(r) == r
  {
  }

  lemma HeaderFacts(p: Profile, s: System)
    requires Inv(p, s) && !s.rec.header
    ensures s.rec.sent == [] && s.rec.inFlight == []
  {
    CoreFacts(p, s);
    NoBatches();
    hide CursorInv, RecordsInv, HeadsInv, AllCover, StoreInv, ReportInv, OrderInv, WaitInv, FlightInv, BatchesOf;
  }

  // The outbox goes out before the first batch of all.
  lemma HeaderSends(p: Profile, r: Recorder, origin: nat, next: int)
    requires BytesInv(p, r) && ItemsInv(r.sent, r.outbox, origin, next) && !r.header && r.sent == [] && r.inFlight == []
    ensures BytesInv(p, HeaderStored(r)) && ItemsInv(HeaderStored(r).sent, HeaderStored(r).outbox, origin, next)
  {
    var r1 := Dispatch(r.(header := true, outbox := []), r.outbox);
    var m := BatchMsg(r1.held, Head(r1.runId, r1.lastThroughSeq, r1.simTick, r1.simTime));
    RestOfItems(r.outbox);
    OutboxSent(p, r);
    hide ItemsInv, BytesInv, Flush, UpdateWaiting, BatchesOf, ItemMessages, ItemsWith, Placed;
    assert r1.sent == ItemMessages(r.outbox);
    FirstItems(r.sent, r.outbox, r1.sent, origin, next);
    FlushBytes(p, r1);
    FlushSends(r1);
    if Flush(r1).sent != r1.sent { FlushItems(r1.sent, m, origin, next); }
    WaitingBytes(p, Flush(r1));
  }

  lemma OutboxSent(p: Profile, r: Recorder)
    requires BytesInv(p, r) && r.sent == [] && r.inFlight == []
    ensures BytesInv(p, Dispatch(r.(header := true, outbox := []), r.outbox))
  {
    RestOfItems(r.outbox);
    NoLoads(p);
    WeightOfNone(p);
    var ms := ItemMessages(r.outbox);
    assert [] + ms == ms;
    hide Weight, ItemMessages, Loads, Rest, ItemBytes, ItemsWith, BatchesOf;
  }

  lemma FirstItems(sent: seq<Message>, outbox: seq<Item>, sent': seq<Message>, origin: nat, next: int)
    requires ItemsInv(sent, outbox, origin, next)
    requires BatchesOf(sent') == [] && forall i: nat :: ItemsWith(sent', i) == if i == 0 then outbox else []
    ensures ItemsInv(sent', [], origin, next)
  {
    hide BatchesOf, ItemsWith, Placed;
  }

  lemma NoLoads(p: Profile)
    ensures Loads(p, []) == [] && Rest([]) == 0
  {
  }

  lemma ReportLoads(p: Profile, s: System, head: Head)
    requires LoadInv(p, s)
    ensures var s' := Arrive(s, head);
      && BytesInv(p, s'.rec) && s'.rec.sent == s.rec.sent && s'.rec.outbox == s.rec.outbox
      && s'.origin == s.origin && s'.cache.next == s.cache.next
  {
    hide ItemsInv, Loads, Rest, Weight, ItemBytes, Release;
    if Accepts(s.rec, head) {
      ReleaseIsSuffix(s.rec.inFlight, head.throughSeq);
      WaitingBytes(p, s.rec.(inFlight := Release(s.rec.inFlight, head.throughSeq), persistedAt := Some(head)));
    }
  }

  lemma StepLoads(p: Profile, s: System, step: Step)
    requires Inv(p, s) && LoadInv(p, s) && Enabled(s, step)
    ensures LoadInv(p, Next(p, s, step))
  {
    hide Inv, BytesInv, ItemsInv;
    match step {
      case Emit(input, source) => ItemsLater(s.rec.sent, s.rec.outbox, s.origin, s.cache.next, Push(s.cache, input, source).next);
      case DoCollect(tick, time) => CollectLoads(p, s, tick, time);
      case DoEnqueue(item) => EnqueueLoads(p, s, item);
      case DoHeaderStored => HeaderLoads(p, s);
      case Commit(n) => assert CommitOf(s, n).rec == s.rec;
      case Report => ReportLoads(p, s.(reports := s.reports[1..], lastReport := s.reports[0]), BatchesOf(s.rec.sent)[s.reports[0]].head);
      case ForeignReport(head) => ReportLoads(p, s, head);
      case DoTakePanel => SameBytes(p, s.rec, TakePanel(s.rec));
    }
  }

  lemma {:induction false} LoadsKept(p: Profile, s: System, steps: seq<Step>)
    requires Inv(p, s) && LoadInv(p, s) && Runs(p, s, steps)
    ensures LoadInv(p, After(p, s, steps))
    decreases |steps|
  {
    hide Inv, LoadInv, Next, Enabled;
    if steps != [] {
      StepKeeps(p, s, steps[0]);
      StepLoads(p, s, steps[0]);
      LoadsKept(p, Next(p, s, steps[0]), steps[1..]);
    }
  }

  lemma ReachableLoads(p: Profile, s: System)
    requires Reachable(p, s)
    ensures LoadInv(p, s)
  {
    hide Inv, LoadInv, Init, Runs, After;
    var s0: System, fromSeq: nat, steps: seq<Step> :| Init(s0, fromSeq) && Runs(p, s0, steps) && After(p, s0, steps) == s;
    InitEstablishes(p, s0, fromSeq);
    InitLoads(p, s0, fromSeq);
    LoadsKept(p, s0, steps);
  }

  lemma InitLoads(p: Profile, s: System, fromSeq: nat)
    requires Init(s, fromSeq)
    ensures LoadInv(p, s)
  {
    NoLoads(p);
    WeightOfNone(p);
    assert forall i: nat :: ItemsWith([], i) == [];
    hide Loads, Rest, Weight, ItemBytes, ItemsWith, CacheInv;
  }

  // ---- what the backlog weighs -----------------------------------------------------------------------------------------------------

  lemma {:induction false} ItemBytesConcat(a: seq<Item>, b: seq<Item>)
    ensures ItemBytes(a + b) == ItemBytes(a) + ItemBytes(b)
  {
    if b == [] {
      assert a + b == a;
    } else {
      assert a + b == (a + b[..|b| - 1]) + [b[|b| - 1]];
      ItemBytesMore(a + b[..|b| - 1], b[|b| - 1]);
      ItemBytesConcat(a, b[..|b| - 1]);
    }
  }

  // The loads of the batches behind the first k, with the rest, are the records of those batches and the items behind the k.
  ghost predicate Behind(p: Profile, ms: seq<Message>, k: nat)
    requires k <= |BatchesOf(ms)| == |Loads(p, ms)|
  {
    Sum(Loads(p, ms)[k..]) + Rest(ms) == Weight(p, RecordsOf(BatchesOf(ms)[k..])) + ItemBytes(ItemsBehind(ms, k))
  }

  lemma {:induction false} LoadsBehind(p: Profile, ms: seq<Message>, k: nat)
    requires k <= |BatchesOf(ms)| == |Loads(p, ms)|
    ensures Behind(p, ms, k)
    decreases |ms|
  {
    if ms == [] {
      NoBatches();
      WeightOfNone(p);
      assert RecordsOf([]) == [];
    } else {
      var before, m := ms[..|ms| - 1], ms[|ms| - 1];
      assert ms == before + [m];
      Pop(before, m);
      LoadsCount(p, before);
      hide BatchesOf, Loads, Weight, Rest, ItemsBehind, ItemBytes, RecordsOf, Behind, Sum;
      if m.ItemMsg? {
        LoadsBehind(p, before, k);
        BehindItem(p, before, m, k);
      } else if k <= |BatchesOf(before)| {
        LoadsBehind(p, before, k);
        BehindBatch(p, before, m, k);
      } else {
        LastBatch(p, ms, k);
      }
    }
  }

  lemma BehindItem(p: Profile, before: seq<Message>, m: Message, k: nat)
    requires k <= |BatchesOf(before)| == |Loads(p, before)| && m.ItemMsg? && Behind(p, before, k)
    ensures |BatchesOf(before + [m])| == |Loads(p, before + [m])| >= k && Behind(p, before + [m], k)
  {
    Pop(before, m);
    LoadsMore(p, before, m);
    ItemBytesMore(ItemsBehind(before, k), m.item);
    hide BatchesOf, Loads, Weight, Rest, ItemsBehind, ItemBytes, RecordsOf, Sum;
    assert Loads(p, before) + [] == Loads(p, before) && BatchesOf(before) + [] == BatchesOf(before);
  }

  lemma BehindBatch(p: Profile, before: seq<Message>, m: Message, k: nat)
    requires k <= |BatchesOf(before)| == |Loads(p, before)| && m.BatchMsg? && Behind(p, before, k)
    ensures |BatchesOf(before + [m])| == |Loads(p, before + [m])| >= k && Behind(p, before + [m], k)
  {
    Pop(before, m);
    LoadsMore(p, before, m);
    hide BatchesOf, Loads, Weight, Rest, ItemsBehind, ItemBytes, RecordsOf, Sum;
    var load := Rest(before) + Weight(p, m.records);
    assert Sum(Loads(p, before + [m])[k..]) == Sum(Loads(p, before)[k..]) + load by {
      assert Loads(p, before + [m])[k..] == Loads(p, before)[k..] + [load];
      SumMore(Loads(p, before)[k..], load);
    }
    assert Weight(p, RecordsOf(BatchesOf(before + [m])[k..])) == Weight(p, RecordsOf(BatchesOf(before)[k..])) + Weight(p, m.records) by {
      assert BatchesOf(before + [m])[k..] == BatchesOf(before)[k..] + [m];
      BatchBehind(p, BatchesOf(before)[k..], m);
    }
    assert ItemsBehind(before, k) + [] == ItemsBehind(before, k);
  }

  lemma SumMore(xs: seq<nat>, x: nat)
    ensures Sum(xs + [x]) == Sum(xs) + x
  {
    assert (xs + [x])[..|xs|] == xs;
  }

  lemma BatchBehind(p: Profile, bs: seq<Message>, m: Message)
    requires m.BatchMsg?
    ensures Weight(p, RecordsOf(bs + [m])) == Weight(p, RecordsOf(bs)) + Weight(p, m.records)
  {
    MessagesConcat(bs, [m]);
    OneBatch(m);
    WeightConcat(p, RecordsOf(bs), m.records);
    hide Weight, RecordsOf;
  }

  // Nothing is behind the last message when that is a batch.
  lemma LastBatch(p: Profile, ms: seq<Message>, k: nat)
    requires ms != [] && ms[|ms| - 1].BatchMsg? && k == |BatchesOf(ms)| == |Loads(p, ms)|
    ensures Behind(p, ms, k)
  {
    var before, m := ms[..|ms| - 1], ms[|ms| - 1];
    assert ms == before + [m];
    Pop(before, m);
    NothingBehind(before, k);
    LoadsMore(p, before, m);
    WeightOfNone(p);
    assert RecordsOf([]) == [];
    hide BatchesOf, Loads, Weight, Rest, ItemsBehind, ItemBytes, RecordsOf;
    assert BatchesOf(ms)[k..] == [] && Loads(p, ms)[k..] == [];
  }

  lemma {:induction false} NothingBehind(ms: seq<Message>, k: nat)
    requires k > |BatchesOf(ms)|
    ensures ItemsBehind(ms, k) == []
  {
    if ms != [] {
      assert ms == ms[..|ms| - 1] + [ms[|ms| - 1]];
      Pop(ms[..|ms| - 1], ms[|ms| - 1]);
      NothingBehind(ms[..|ms| - 1], k);
    }
  }

  lemma {:induction false} FlightSum(fs: seq<InFlight>, loads: seq<nat>)
    requires |fs| == |loads| && forall i :: 0 <= i < |fs| ==> fs[i].bytes == loads[i]
    ensures InFlightBytes(fs) == Sum(loads)
  {
    if fs != [] {
      var n := |fs| - 1;
      FlightSum(fs[..n], loads[..n]);
      assert fs == fs[..n] + [fs[n]];
      InFlightAppend(fs[..n], fs[n]);
    } else {
      assert loads == [];
    }
  }

  // How many batches the reports released.
  function Released(r: Recorder): int { |BatchesOf(r.sent)| - |r.inFlight| }

  // The items that are not behind a released batch: sent and under way, or still held for the header.
  ghost function ItemsOut(r: Recorder, k: nat): seq<Item> { ItemsBehind(r.sent, k) + r.outbox }

  // In every reachable state the bytes of the backlog are those of the kept records no report released, and of the items sent
  // behind the released batches or still held.
  lemma BacklogBytesAre(p: Profile, s: System)
    requires Reachable(p, s)
    ensures Released(s.rec) >= 0
    ensures BacklogBytes(s.rec) == Weight(p, Unsaved(s.rec)) + ItemBytes(ItemsOut(s.rec, Released(s.rec)))
  {
    ReachableLoads(p, s);
    var r := s.rec;
    LoadsCount(p, r.sent);
    var k := |BatchesOf(r.sent)| - |r.inFlight|;
    var loads := Loads(p, r.sent);
    hide Reachable, ItemsInv, BatchesOf, Loads, Rest, Weight, ItemBytes, InFlightBytes, ItemsBehind, RecordsOf;
    FlightSum(r.inFlight, loads[k..]);
    LoadsBehind(p, r.sent, k);
    WeightConcat(p, RecordsOf(BatchesOf(r.sent)[k..]), r.held);
    ItemBytesConcat(ItemsBehind(r.sent, k), r.outbox);
  }

  // ---- when they are the bytes not yet reported ----------------------------------------------------------------------------------------

  // The items between the k-th batch and the n-th.
  lemma {:induction false} BehindSplits(ms: seq<Message>, k: nat, n: nat)
    requires k <= n
    ensures ItemBytes(ItemsBehind(ms, k)) == ItemBytes(ItemsBetween(ms, k, n)) + ItemBytes(ItemsBehind(ms, n))
  {
    hide BatchesOf;
    if ms != [] {
      var before, m := ms[..|ms| - 1], ms[|ms| - 1];
      BehindSplits(before, k, n);
      if m.ItemMsg? {
        ItemBytesMore(ItemsBehind(before, k), m.item);
        ItemBytesMore(ItemsBehind(before, n), m.item);
        ItemBytesMore(ItemsBetween(before, k, n), m.item);
      }
      hide ItemBytes;
      assert forall xs: seq<Item> :: xs + [] == xs;
    }
  }

  // The items that go with one of the batches from the k-th to before the n-th.
  function ItemsBetween(ms: seq<Message>, k: nat, n: nat): seq<Item> {
    if ms == [] then []
    else
      var before, m := ms[..|ms| - 1], ms[|ms| - 1];
      ItemsBetween(before, k, n) + if m.ItemMsg? && k <= |BatchesOf(before)| < n then [m.item] else []
  }

  // What no report has covered yet: the records, and the items sent behind the last batch reported or still held.
  ghost function NotReported(p: Profile, s: System): nat {
    Weight(p, Unsaved(s.rec)) + ItemBytes(ItemsOut(s.rec, Reported(s)))
  }

  function Reported(s: System): nat { if s.lastReport < 0 then 0 else s.lastReport + 1 }

  // The backlog's bytes are those not reported exactly when no batch between the last reported and the first under way carries
  // bytes of items: such a batch shares its number with the reported one and was released with it.
  lemma BytesExactWhen(p: Profile, s: System)
    requires Reachable(p, s)
    ensures Reported(s) <= Released(s.rec)
    ensures BacklogBytes(s.rec) == NotReported(p, s) <==> ItemBytes(ItemsBetween(s.rec.sent, Reported(s), Released(s.rec))) == 0
    ensures BacklogBytes(s.rec) <= NotReported(p, s)
  {
    ReachableInv(p, s);
    CoreFacts(p, s);
    ReportedFirst(s);
    BacklogBytesAre(p, s);
    var r := s.rec;
    var n, k := Reported(s), Released(r);
    hide *;
    BehindSplits(r.sent, n, k);
    OutBytes(r, n);
    OutBytes(r, k);
    assert NotReported(p, s) == Weight(p, Unsaved(r)) + ItemBytes(ItemsOut(r, n)) by { NotReportedIs(p, s); }
  }

  lemma NotReportedIs(p: Profile, s: System)
    ensures NotReported(p, s) == Weight(p, Unsaved(s.rec)) + ItemBytes(ItemsOut(s.rec, Reported(s)))
  {
  }

  lemma OutBytes(r: Recorder, k: nat)
    ensures ItemBytes(ItemsOut(r, k)) == ItemBytes(ItemsBehind(r.sent, k)) + ItemBytes(r.outbox)
  {
    ItemBytesConcat(ItemsBehind(r.sent, k), r.outbox);
  }

  lemma ReportedFirst(s: System)
    requires FlightInv(BatchesOf(s.rec.sent), s.rec.inFlight, s.rec.persistedAt, s.lastReport, s.rec.runId, s.rec.simTick)
    ensures Reported(s) <= Released(s.rec)
  {
  }

  // ---- when every item refers to a record ------------------------------------------------------------------------------------------------

  lemma {:induction false} BetweenWith(ms: seq<Message>, k: nat, n: nat, x: Item)
    requires x in ItemsBetween(ms, k, n)
    ensures x in ItemsOf(ms) && exists i: nat :: k <= i < n && x in ItemsWith(ms, i)
  {
    hide BatchesOf, ItemsOf;
    var before, m := ms[..|ms| - 1], ms[|ms| - 1];
    assert ms == before + [m];
    MessagesConcat(before, [m]);
    OneItem(m);
    if x in ItemsBetween(before, k, n) {
      BetweenWith(before, k, n, x);
      var i: nat :| k <= i < n && x in ItemsWith(before, i);
      assert x in ItemsWith(ms, i);
    } else {
      assert x in ItemsWith(ms, |BatchesOf(before)|);
    }
  }

  lemma OneItem(m: Message)
    ensures ItemsOf([m]) == if m.ItemMsg? then [m.item] else []
  {
  }

  lemma {:induction false} NoBytes(items: seq<Item>)
    requires forall x :: x in items ==> x.bytes == 0
    ensures ItemBytes(items) == 0
  {
    if items != [] { NoBytes(items[..|items| - 1]); }
  }

  // Released early, a batch has the number of the one reported; an item that refers to a record is never sent before such a batch.
  lemma ReleasedEarly(bs: seq<Message>, r: Recorder, lastReport: int, i: nat, x: Item, origin: nat, next: int)
    requires FlightInv(bs, r.inFlight, r.persistedAt, lastReport, r.runId, r.simTick)
    requires HeadsInv(bs, r.runId, r.lastThroughSeq, r.simTick)
    requires lastReport < i < |bs| - |r.inFlight| && Placed(x, i, bs, origin, next)
    ensures x.refersFrom.None?
  {
    hide Aligned;
    var k := |bs| - |r.inFlight|;
    assert r.persistedAt.Some?;
    assert bs[lastReport].head.throughSeq <= bs[i - 1].head.throughSeq;
    assert bs[i].head.throughSeq <= bs[k - 1].head.throughSeq;
  }

  // A caller that gives only items of records still to be gathered has exact bytes: in every state its run can reach, the backlog
  // weighs what no report has covered.
  lemma ReferringItemsAreExact(p: Profile, s: System)
    requires Reachable(p, s)
    requires forall x :: x in s.enqueued ==> x.refersFrom.Some? || x.bytes == 0
    ensures BacklogBytes(s.rec) == NotReported(p, s)
  {
    ReachableInv(p, s);
    ReachableLoads(p, s);
    CoreFacts(p, s);
    BytesExactWhen(p, s);
    ItemsGiven(p, s);
    var r, bs := s.rec, BatchesOf(s.rec.sent);
    hide Reachable, Inv, BytesInv, FlightInv, HeadsInv, AllCover, Placed, BatchesOf, ItemsOf, ItemsWith, ItemsBetween, NotReported, Kept;
    var n, k := Reported(s), Released(r);
    forall x | x in ItemsBetween(r.sent, n, k) ensures x.bytes == 0 {
      BetweenWith(r.sent, n, k, x);
      var i: nat :| n <= i < k && x in ItemsWith(r.sent, i);
      ReleasedEarly(bs, r, s.lastReport, i, x, s.origin, s.cache.next);
    }
    NoBytes(ItemsBetween(r.sent, n, k));
  }

  lemma ItemsGiven(p: Profile, s: System)
    requires Inv(p, s)
    ensures forall x :: x in ItemsOf(s.rec.sent) ==> x in s.enqueued
  {
    hide CursorInv, RecordsInv, HeadsInv, AllCover, ReportInv, FlightInv, OrderInv, WaitInv, HeldInv, BatchesOf, ItemsOf;
  }
}
