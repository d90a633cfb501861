// The recording protocol as a transition system: the run emits, the recorder gathers and sends, storage commits what it
// was sent in order (several messages in one transaction, one report for the last batch of it) and the reports come back
// in order. Its invariant, and that every step keeps it.
module RecordingSystem {
  import opened Wrappers
  import opened Trace
  import opened TraceCache
  import opened Recording

  datatype System = System(
    base: nat,             // the seq the run's numbering started at
    heldFrom: nat,         // oldest record in the cache when the recorder was made
    origin: nat,           // first seq this recorder gathers
    log: seq<TraceRecord>, // everything emitted
    cache: Cache,
    rec: Recorder,
    committed: nat,        // messages storage has taken from the channel
    store: seq<TraceRecord>,
    storedItems: seq<Item>,
    reports: seq<nat>,     // reports under way: each the index of the batch it reports
    lastReport: int,       // the last report that arrived (-1: none)
    panelTaken: seq<TraceRecord>,
    enqueued: seq<Item>)

  datatype Step =
    | Emit(input: RecordInput, source: string)
    | DoCollect(tick: nat, time: real)
    | DoEnqueue(item: Item)
    | DoHeaderStored
    | Commit(n: nat)
    | Report
    | ForeignReport(head: Head)
    | DoTakePanel

  function BatchesOf(ms: seq<Message>): (bs: seq<Message>)
    ensures forall i :: 0 <= i < |bs| ==> bs[i].BatchMsg?
  {
    if ms == [] then [] else (if ms[0].BatchMsg? then [ms[0]] else []) + BatchesOf(ms[1..])
  }

  function ItemsOf(ms: seq<Message>): seq<Item> {
    if ms == [] then [] else (if ms[0].ItemMsg? then [ms[0].item] else []) + ItemsOf(ms[1..])
  }

  function RecordsOf(ms: seq<Message>): seq<TraceRecord> {
    if ms == [] then [] else (if ms[0].BatchMsg? then ms[0].records else []) + RecordsOf(ms[1..])
  }

  // Where gathering stands: every record from `origin` up to here has been gathered.
  function Pos(cursor: int, origin: nat): int { if cursor >= origin then cursor else origin }

  function PosOf(s: System): int { Pos(s.rec.cursor, s.origin) }

  // What the recorder has gathered so far, before the profile.
  function GatheredOf(s: System): seq<TraceRecord> { Span(s.log, s.base, s.origin, PosOf(s)) }

  // ---- the invariant ---------------------------------------------------------------------------------------------------

  ghost predicate CursorInv(base: nat, heldFrom: nat, origin: nat, log: seq<TraceRecord>, cache: Cache, runId: string,
                            cursor: int, through: int) {
    && CacheInv(cache, base, log, heldFrom)
    && cache.holding && runId == cache.runId
    && heldFrom <= origin
    && First(cache) <= Pos(cursor, origin)
    && cache.persistedSeq < Pos(cursor, origin)
    && (cursor < origin ==> First(cache) == origin && through == -1)
    && (Pos(cursor, origin) == origin || Pos(cursor, origin) <= cache.next)
    && (through == -1 || (through >= origin && cursor == through + 1))
    && (through == -1 ==> Pos(cursor, origin) == origin)
  }

  ghost predicate RecordsInv(p: Profile, gathered: seq<TraceRecord>, sent: seq<Message>, held: seq<TraceRecord>,
                             panelTaken: seq<TraceRecord>, panel: seq<TraceRecord>, handedOver: nat) {
    && RecordsOf(sent) + held == Kept(p, gathered)
    && panelTaken + panel == NotPoses(p, Kept(p, gathered))
    && handedOver == |Kept(p, gathered)|
  }

  // Up to the seq the batch covers, it and the batches before it hold just what the profile keeps.
  ghost predicate Covers(p: Profile, base: nat, origin: nat, log: seq<TraceRecord>, bs: seq<Message>, i: nat)
    requires i < |bs| && bs[i].BatchMsg?
  {
    RecordsOf(bs[..i + 1]) == Kept(p, Span(log, base, origin, bs[i].head.throughSeq + 1))
  }

  ghost predicate AllCover(p: Profile, base: nat, origin: nat, log: seq<TraceRecord>, bs: seq<Message>) {
    forall i :: 0 <= i < |bs| ==> bs[i].BatchMsg? && Covers(p, base, origin, log, bs, i)
  }

  ghost predicate HeadsInv(bs: seq<Message>, runId: string, through: int, tick: nat) {
    && (forall i :: 0 <= i < |bs| ==>
          bs[i].BatchMsg? && bs[i].head.runId == runId && bs[i].head.throughSeq <= through && bs[i].head.tick <= tick)
    && (forall i, j :: 0 <= i < j < |bs| ==>
          bs[i].head.throughSeq <= bs[j].head.throughSeq && bs[i].head.tick <= bs[j].head.tick)
  }

  ghost predicate StoreInv(sent: seq<Message>, outbox: seq<Item>, committed: nat, store: seq<TraceRecord>,
                           storedItems: seq<Item>, enqueued: seq<Item>) {
    && committed <= |sent|
    && store == RecordsOf(sent[..committed])
    && storedItems == ItemsOf(sent[..committed])
    && ItemsOf(sent) + outbox == enqueued
  }

  ghost predicate ReportInv(sent: seq<Message>, committed: nat, reports: seq<nat>, lastReport: int) {
    && committed <= |sent|
    && var done := |BatchesOf(sent[..committed])|;
    && done <= |BatchesOf(sent)|
    && -1 <= lastReport < done
    && (forall i :: 0 <= i < |reports| ==> lastReport < reports[i] < done)
    && (forall i, j :: 0 <= i < j < |reports| ==> reports[i] < reports[j])
    // The last batch storage committed is reported: the report is under way or has arrived.
    && (if reports == [] then lastReport else reports[|reports| - 1]) == done - 1
  }

  ghost predicate SameBatch(b: Message, f: InFlight) {
    b.BatchMsg? && f.throughSeq == b.head.throughSeq && f.records == |b.records|
  }

  // `inFlight` is the last of the batches sent.
  ghost predicate Aligned(bs: seq<Message>, inFlight: seq<InFlight>) {
    && |inFlight| <= |bs|
    && forall i :: 0 <= i < |inFlight| ==> SameBatch(bs[|bs| - |inFlight| + i], inFlight[i])
  }

  // `inFlight` is what is left of the batches once the reported ones are released.
  ghost predicate FlightInv(bs: seq<Message>, inFlight: seq<InFlight>, persistedAt: Option<Head>, lastReport: int,
                            runId: string, tick: nat) {
    && (forall i :: 0 <= i < |bs| ==> bs[i].BatchMsg?)
    && Aligned(bs, inFlight)
    && var k := |bs| - |inFlight|;
    && lastReport < k
    && match persistedAt
       case None => k == 0 && lastReport == -1
       case Some(h) =>
         && 0 <= lastReport
         && h.runId == runId && h.tick <= tick
         && bs[lastReport].head.throughSeq == h.throughSeq == bs[k - 1].head.throughSeq
         && (forall i :: k <= i < |bs| ==> bs[i].head.tick >= h.tick)
  }

  ghost predicate HeldInv(r: Recorder) {
    && (r.heldBytes > 0 ==> r.held != [] || r.outbox != [] || r.itemsSent > 0)
    && (r.header ==> r.outbox == [])
    && (!r.header ==> r.sent == [] && r.itemsSent == 0)
  }

  ghost predicate WaitInv(r: Recorder) {
    && (!r.waiting ==> BacklogRecords(r) < r.flow.highRecords && BacklogBytes(r) < r.flow.highBytes)
    && (r.waiting ==> BacklogRecords(r) > r.flow.lowRecords || BacklogBytes(r) > r.flow.lowBytes)
  }

  // Whether `b`, sent before `m`, may not cover the record `m` belongs to.
  ghost predicate InOrder(b: Message, m: Message) {
    b.BatchMsg? && m.ItemMsg? && m.item.refersFrom.Some? ==> b.head.throughSeq < m.item.refersFrom.value
  }

  ghost predicate OrderInv(sent: seq<Message>, through: int) {
    && (forall i :: 0 <= i < |sent| ==> sent[i].BatchMsg? ==> sent[i].head.throughSeq <= through)
    && (forall i, j :: 0 <= i < j < |sent| ==> InOrder(sent[i], sent[j]))
  }

  // Everything but the wait, which the last act of each step brings up to date.
  ghost predicate Core(p: Profile, s: System) {
    var r, bs := s.rec, BatchesOf(s.rec.sent);
    && r.flow.Sensible()
    && CursorInv(s.base, s.heldFrom, s.origin, s.log, s.cache, r.runId, r.cursor, r.lastThroughSeq)
    && RecordsInv(p, GatheredOf(s), r.sent, r.held, s.panelTaken, r.panel, r.handedOver)
    && HeadsInv(bs, r.runId, r.lastThroughSeq, r.simTick)
    && AllCover(p, s.base, s.origin, s.log, bs)
    && StoreInv(r.sent, r.outbox, s.committed, s.store, s.storedItems, s.enqueued)
    && ReportInv(r.sent, s.committed, s.reports, s.lastReport)
    && FlightInv(bs, r.inFlight, r.persistedAt, s.lastReport, r.runId, r.simTick)
    && HeldInv(r)
    && OrderInv(r.sent, r.lastThroughSeq)
  }

  ghost predicate Inv(p: Profile, s: System) { Core(p, s) && WaitInv(s.rec) }

  // ---- the steps -----------------------------------------------------------------------------------------------------

  ghost predicate Enabled(s: System, step: Step) {
    match step
    case Emit(input, _) => input.simTime >= s.cache.lastSimTime
    case DoCollect(tick, _) => tick >= s.rec.simTick
    // An item is given after the record that refers to it was emitted and before it is gathered.
    case DoEnqueue(item) => item.refersFrom.Some? ==> PosOf(s) <= item.refersFrom.value < s.cache.next
    case DoHeaderStored => true
    case Commit(n) => 0 < n && s.committed + n <= |s.rec.sent|
    case Report => s.reports != [] && s.reports[0] < |BatchesOf(s.rec.sent)|
    case ForeignReport(head) => head.runId != s.rec.runId
    case DoTakePanel => true
  }

  ghost function Arrive(s: System, head: Head): System {
    s.(rec := Persisted(s.rec, head),
       cache := if Accepts(s.rec, head) then MarkPersisted(s.cache, head.throughSeq) else s.cache)
  }

  ghost function CommitOf(s: System, n: nat): System
    requires s.committed + n <= |s.rec.sent|
  {
    var taken := s.rec.sent[s.committed..s.committed + n];
    var done := |BatchesOf(s.rec.sent[..s.committed + n])|;
    s.(committed := s.committed + n, store := s.store + RecordsOf(taken), storedItems := s.storedItems + ItemsOf(taken),
       reports := if BatchesOf(taken) == [] || done == 0 then s.reports else s.reports + [done - 1])
  }

  ghost function Next(p: Profile, s: System, step: Step): System
    requires Enabled(s, step)
  {
    match step
    case Emit(input, source) =>
      s.(log := s.log + [Stamp(input, s.cache.runId, s.cache.next, source)], cache := Push(s.cache, input, source))
    case DoCollect(tick, time) => s.(rec := Collect(p, s.rec, Since(s.cache, s.rec.cursor), tick, time))
    case DoEnqueue(item) => s.(rec := Enqueue(s.rec, item), enqueued := s.enqueued + [item])
    case DoHeaderStored => s.(rec := HeaderStored(s.rec))
    case Commit(n) => CommitOf(s, n)
    case Report =>
      Arrive(s.(reports := s.reports[1..], lastReport := s.reports[0]), BatchesOf(s.rec.sent)[s.reports[0]].head)
    case ForeignReport(head) => Arrive(s, head)
    case DoTakePanel => s.(panelTaken := s.panelTaken + s.rec.panel, rec := TakePanel(s.rec))
  }

  // A recorder made for a run whose cache has nothing marked saved at or after where gathering starts.
  ghost predicate Init(s: System, fromSeq: nat) {
    && CacheInv(s.cache, s.base, s.log, s.heldFrom)
    && s.cache.holding
    && s.heldFrom == First(s.cache)
    && s.origin == Pos(fromSeq, s.heldFrom)
    && s.cache.persistedSeq < s.origin
    && s.rec.flow.Sensible()
    && s.rec == Start(s.cache.runId, s.rec.flow, fromSeq)
    && s.committed == 0 && s.store == [] && s.storedItems == [] && s.reports == [] && s.lastReport == -1
    && s.panelTaken == [] && s.enqueued == []
  }

  // ---- sequences of messages -------------------------------------------------------------------------------------------

  lemma {:induction false} BatchesConcat(a: seq<Message>, b: seq<Message>)
    ensures BatchesOf(a + b) == BatchesOf(a) + BatchesOf(b)
  {
    if a == [] { assert a + b == b; } else {
      var one := if a[0].BatchMsg? then [a[0]] else [];
      assert (a + b)[0] == a[0] && (a + b)[1..] == a[1..] + b;
      BatchesConcat(a[1..], b);
      assert one + (BatchesOf(a[1..]) + BatchesOf(b)) == (one + BatchesOf(a[1..])) + BatchesOf(b);
    }
  }

  lemma {:induction false} ItemsConcat(a: seq<Message>, b: seq<Message>)
    ensures ItemsOf(a + b) == ItemsOf(a) + ItemsOf(b)
  {
    if a == [] { assert a + b == b; } else {
      var one := if a[0].ItemMsg? then [a[0].item] else [];
      assert (a + b)[0] == a[0] && (a + b)[1..] == a[1..] + b;
      ItemsConcat(a[1..], b);
      assert one + (ItemsOf(a[1..]) + ItemsOf(b)) == (one + ItemsOf(a[1..])) + ItemsOf(b);
    }
  }

  lemma {:induction false} RecordsConcat(a: seq<Message>, b: seq<Message>)
    ensures RecordsOf(a + b) == RecordsOf(a) + RecordsOf(b)
  {
    if a == [] { assert a + b == b; } else {
      var one := if a[0].BatchMsg? then a[0].records else [];
      assert (a + b)[0] == a[0] && (a + b)[1..] == a[1..] + b;
      RecordsConcat(a[1..], b);
      assert one + (RecordsOf(a[1..]) + RecordsOf(b)) == (one + RecordsOf(a[1..])) + RecordsOf(b);
    }
  }

  lemma MessagesConcat(a: seq<Message>, b: seq<Message>)
    ensures BatchesOf(a + b) == BatchesOf(a) + BatchesOf(b)
    ensures ItemsOf(a + b) == ItemsOf(a) + ItemsOf(b)
    ensures RecordsOf(a + b) == RecordsOf(a) + RecordsOf(b)
  {
    hide BatchesOf, ItemsOf, RecordsOf;
    BatchesConcat(a, b);
    ItemsConcat(a, b);
    RecordsConcat(a, b);
  }

  lemma {:induction false} RecordsOfBatches(ms: seq<Message>)
    ensures RecordsOf(BatchesOf(ms)) == RecordsOf(ms)
  {
    if ms != [] {
      RecordsOfBatches(ms[1..]);
      MessagesConcat(if ms[0].BatchMsg? then [ms[0]] else [], BatchesOf(ms[1..]));
    }
  }

  lemma MessagesSplit(ms: seq<Message>, k: nat)
    requires k <= |ms|
    ensures BatchesOf(ms) == BatchesOf(ms[..k]) + BatchesOf(ms[k..])
    ensures ItemsOf(ms) == ItemsOf(ms[..k]) + ItemsOf(ms[k..])
    ensures RecordsOf(ms) == RecordsOf(ms[..k]) + RecordsOf(ms[k..])
  {
    hide *;
    assert ms[..k] + ms[k..] == ms;
    MessagesConcat(ms[..k], ms[k..]);
  }

  lemma {:induction false} ItemMessagesAre(items: seq<Item>)
    ensures var ms := ItemMessages(items); BatchesOf(ms) == [] && ItemsOf(ms) == items && RecordsOf(ms) == []
  {
    if items != [] {
      assert ItemMessages(items)[1..] == ItemMessages(items[1..]);
      ItemMessagesAre(items[1..]);
    }
  }

  lemma OneBatch(m: Message)
    requires m.BatchMsg?
    ensures BatchesOf([m]) == [m] && ItemsOf([m]) == [] && RecordsOf([m]) == m.records
  {
  }

  // ---- acts on the parts -----------------------------------------------------------------------------------------------

  lemma SpanStable(log: seq<TraceRecord>, base: nat, lo: int, hi: int, r: TraceRecord)
    requires hi <= base + |log| || hi <= lo
    ensures Span(log + [r], base, lo, hi) == Span(log, base, lo, hi)
  {
  }

  lemma SpanExtends(log: seq<TraceRecord>, base: nat, lo: int, mid: int)
    requires lo <= mid
    ensures From(log, base, lo) == Span(log, base, lo, mid) + From(log, base, mid)
    ensures Span(log, base, lo, base + |log|) == From(log, base, lo)
  {
  }

  lemma CoverLogGrows(p: Profile, base: nat, origin: nat, log: seq<TraceRecord>, bs: seq<Message>, runId: string,
                      through: int, tick: nat, r: TraceRecord)
    requires AllCover(p, base, origin, log, bs) && HeadsInv(bs, runId, through, tick)
    requires through + 1 <= base + |log| || through + 1 <= origin
    ensures AllCover(p, base, origin, log + [r], bs)
  {
    hide RecordsOf, Kept, Span;
    forall i | 0 <= i < |bs| ensures Covers(p, base, origin, log + [r], bs, i) {
      assert Covers(p, base, origin, log, bs, i);
      SpanStable(log, base, origin, bs[i].head.throughSeq + 1, r);
    }
  }

  lemma CoverAppend(p: Profile, base: nat, origin: nat, log: seq<TraceRecord>, bs: seq<Message>, m: Message)
    requires AllCover(p, base, origin, log, bs)
    requires m.BatchMsg?
    requires RecordsOf(bs) + m.records == Kept(p, Span(log, base, origin, m.head.throughSeq + 1))
    ensures AllCover(p, base, origin, log, bs + [m])
  {
    hide Kept, Span;
    var bs' := bs + [m];
    MessagesConcat(bs, [m]);
    OneBatch(m);
    hide RecordsOf;
    forall i | 0 <= i < |bs'| ensures Covers(p, base, origin, log, bs', i) {
      if i < |bs| {
        assert bs'[..i + 1] == bs[..i + 1];
        assert Covers(p, base, origin, log, bs, i);
      } else {
        assert bs'[..i + 1] == bs';
      }
    }
  }

  lemma HeadsAppend(bs: seq<Message>, m: Message, runId: string, through: int, tick: nat)
    requires HeadsInv(bs, runId, through, tick)
    requires m.BatchMsg? && m.head.runId == runId && m.head.throughSeq == through && m.head.tick == tick
    ensures HeadsInv(bs + [m], runId, through, tick)
  {
  }

  lemma OrderAppendItems(sent: seq<Message>, through: int, items: seq<Item>)
    requires OrderInv(sent, through)
    requires sent != [] ==> forall k :: 0 <= k < |items| ==> items[k].refersFrom.Some? ==> through < items[k].refersFrom.value
    ensures OrderInv(sent + ItemMessages(items), through)
  {
    var sent' := sent + ItemMessages(items);
    forall i, j | 0 <= i < j < |sent'| ensures InOrder(sent'[i], sent'[j]) {
      if j < |sent| { assert InOrder(sent[i], sent[j]); }
    }
  }

  lemma OrderAppendBatch(sent: seq<Message>, through: int, m: Message)
    requires OrderInv(sent, through) && m.BatchMsg? && m.head.throughSeq <= through
    ensures OrderInv(sent + [m], through)
  {
    var sent' := sent + [m];
    forall i, j | 0 <= i < j < |sent'| ensures InOrder(sent'[i], sent'[j]) {
      if j < |sent| { assert InOrder(sent[i], sent[j]); }
    }
  }

  lemma CursorEmit(s: System, input: RecordInput, source: string)
    requires CursorInv(s.base, s.heldFrom, s.origin, s.log, s.cache, s.rec.runId, s.rec.cursor, s.rec.lastThroughSeq)
    requires input.simTime >= s.cache.lastSimTime
    ensures CursorInv(s.base, s.heldFrom, s.origin, s.log + [Stamp(input, s.cache.runId, s.cache.next, source)],
                      Push(s.cache, input, source), s.rec.runId, s.rec.cursor, s.rec.lastThroughSeq)
  {
    var r := Stamp(input, s.cache.runId, s.cache.next, source);
    PushKeepsInv(s.cache, input, source, s.base, s.log, s.heldFrom);
    var c' := Push(s.cache, input, source);
    assert First(c') <= PosOf(s) && (s.rec.cursor < s.origin ==> First(c') == s.origin) by {
      assert First(c') == s.heldFrom || First(c') <= c'.persistedSeq + 1;
    }
  }

  lemma CursorMark(s: System, through: int)
    requires CursorInv(s.base, s.heldFrom, s.origin, s.log, s.cache, s.rec.runId, s.rec.cursor, s.rec.lastThroughSeq)
    requires through <= s.rec.lastThroughSeq
    ensures CursorInv(s.base, s.heldFrom, s.origin, s.log, MarkPersisted(s.cache, through), s.rec.runId, s.rec.cursor,
                      s.rec.lastThroughSeq)
  {
    MarkPersistedKeepsInv(s.cache, through, s.base, s.log, s.heldFrom);
    var c' := MarkPersisted(s.cache, through);
    assert First(c') == s.heldFrom || First(c') <= c'.persistedSeq + 1;
  }

  // A collect sees every record not gathered yet, and nothing else.
  lemma CollectSeesAll(base: nat, heldFrom: nat, origin: nat, log: seq<TraceRecord>, cache: Cache, runId: string,
                       cursor: int, through: int)
    requires CursorInv(base, heldFrom, origin, log, cache, runId, cursor, through)
    ensures Since(cache, cursor) == From(log, base, Pos(cursor, origin))
  {
    SinceSkipsNothing(cache, base, log, heldFrom, cursor);
    SinceSkipsNothing(cache, base, log, heldFrom, origin);
  }

  lemma CursorAdvances(base: nat, heldFrom: nat, origin: nat, log: seq<TraceRecord>, cache: Cache, runId: string,
                       cursor: int, through: int)
    requires CursorInv(base, heldFrom, origin, log, cache, runId, cursor, through)
    ensures var news := From(log, base, Pos(cursor, origin));
      var all := Span(log, base, origin, Pos(cursor, origin)) + news;
      if news == [] then all == Span(log, base, origin, Pos(cursor, origin))
      else var last := news[|news| - 1].seqNo;
        && CursorInv(base, heldFrom, origin, log, cache, runId, last + 1, last)
        && Span(log, base, origin, Pos(last + 1, origin)) == all
        && through <= last
  {
    hide *;
    var at := Pos(cursor, origin);
    var news := From(log, base, at);
    CacheOf(base, heldFrom, origin, log, cache, runId, cursor, through);
    SpanExtends(log, base, origin, at);
    LastEmitted(cache, base, log, heldFrom, at);
    if news == [] {
      assert Span(log, base, origin, at) + [] == Span(log, base, origin, at);
    } else {
      CursorTo(base, heldFrom, origin, log, cache, runId, cursor, through, news[|news| - 1].seqNo);
    }
  }

  lemma CacheOf(base: nat, heldFrom: nat, origin: nat, log: seq<TraceRecord>, cache: Cache, runId: string, cursor: int, through: int)
    requires CursorInv(base, heldFrom, origin, log, cache, runId, cursor, through)
    ensures CacheInv(cache, base, log, heldFrom) && origin <= Pos(cursor, origin)
  {
    hide CacheInv;
  }

  lemma CursorTo(base: nat, heldFrom: nat, origin: nat, log: seq<TraceRecord>, cache: Cache, runId: string, cursor: int, through: int,
                 last: int)
    requires CursorInv(base, heldFrom, origin, log, cache, runId, cursor, through)
    requires Pos(cursor, origin) <= last && last + 1 == cache.next
    ensures CursorInv(base, heldFrom, origin, log, cache, runId, last + 1, last)
    ensures Pos(last + 1, origin) == last + 1 && through <= last
  {
    hide CacheInv;
  }

  lemma LastEmitted(cache: Cache, base: nat, log: seq<TraceRecord>, heldFrom: nat, at: int)
    requires CacheInv(cache, base, log, heldFrom)
    ensures var news := From(log, base, at);
      news != [] ==> news[|news| - 1].seqNo + 1 == base + |log| == cache.next && at <= news[|news| - 1].seqNo
  {
    var news := From(log, base, at);
    assert news != [] ==> news[|news| - 1] == log[|log| - 1];
    hide Trimmed;
  }

  // ---- gathering and sending ---------------------------------------------------------------------------------------------

  lemma RecordsGather(p: Profile, gathered: seq<TraceRecord>, sent: seq<Message>, held: seq<TraceRecord>,
                      taken: seq<TraceRecord>, panel: seq<TraceRecord>, handedOver: nat, news: seq<TraceRecord>)
    requires RecordsInv(p, gathered, sent, held, taken, panel, handedOver)
    ensures var k := Kept(p, news);
      RecordsInv(p, gathered + news, sent, held + k, taken, panel + NotPoses(p, k), handedOver + |k|)
  {
    hide Kept, NotPoses, RecordsOf;
    var k := Kept(p, news);
    KeptConcat(p, gathered, news);
    NotPosesConcat(p, Kept(p, gathered), k);
    Regroup(RecordsOf(sent), held, k);
    Regroup(taken, panel, NotPoses(p, k));
  }

  lemma Regroup(a: seq<TraceRecord>, b: seq<TraceRecord>, c: seq<TraceRecord>)
    ensures a + (b + c) == a + b + c
  {
  }

  lemma RecordsSend(p: Profile, gathered: seq<TraceRecord>, sent: seq<Message>, held: seq<TraceRecord>,
                    taken: seq<TraceRecord>, panel: seq<TraceRecord>, handedOver: nat, head: Head)
    requires RecordsInv(p, gathered, sent, held, taken, panel, handedOver)
    ensures RecordsInv(p, gathered, sent + [BatchMsg(held, head)], [], taken, panel, handedOver)
  {
    MessagesConcat(sent, [BatchMsg(held, head)]);
    OneBatch(BatchMsg(held, head));
  }

  lemma FlightSend(bs: seq<Message>, inFlight: seq<InFlight>, persistedAt: Option<Head>, lastReport: int, runId: string,
                   tick: nat, m: Message, f: InFlight)
    requires FlightInv(bs, inFlight, persistedAt, lastReport, runId, tick)
    requires m.BatchMsg? && m.head.tick == tick && f.throughSeq == m.head.throughSeq && f.records == |m.records|
    ensures FlightInv(bs + [m], inFlight + [f], persistedAt, lastReport, runId, tick)
  {
  }

  lemma FlightIdle(bs: seq<Message>, persistedAt: Option<Head>, lastReport: int, runId: string, tick: nat, time: real)
    requires FlightInv(bs, [], persistedAt, lastReport, runId, tick)
    requires persistedAt.Some?
    ensures FlightInv(bs, [], Some(persistedAt.value.(tick := tick, simTime := time)), lastReport, runId, tick)
  {
  }

  // A report that is taken releases every batch it covers, and no batch a later report is needed for.
  lemma FlightAccept(bs: seq<Message>, inFlight: seq<InFlight>, persistedAt: Option<Head>, lastReport: int, runId: string,
                     through: int, tick: nat, a: nat)
    requires FlightInv(bs, inFlight, persistedAt, lastReport, runId, tick) && HeadsInv(bs, runId, through, tick)
    requires lastReport < a < |bs|
    ensures FlightInv(bs, Release(inFlight, bs[a].head.throughSeq), Some(bs[a].head), a, runId, tick)
  {
    var t := bs[a].head.throughSeq;
    AlignedRelease(bs, inFlight, t);
    var left := Release(inFlight, t);
    var k, k' := |bs| - |inFlight|, |bs| - |left|;
    hide Release, Aligned;
    assert a < k';
  }

  lemma AlignedRelease(bs: seq<Message>, inFlight: seq<InFlight>, t: int)
    requires Aligned(bs, inFlight)
    ensures var left := Release(inFlight, t);
      && Aligned(bs, left) && |left| <= |inFlight|
      && (left != [] ==> var b := bs[|bs| - |left|]; b.BatchMsg? && b.head.throughSeq > t)
      && (|left| < |inFlight| ==> var b := bs[|bs| - |left| - 1]; b.BatchMsg? && b.head.throughSeq <= t)
  {
    ReleaseIsSuffix(inFlight, t);
    var left := Release(inFlight, t);
    var d := |inFlight| - |left|;
    forall i | 0 <= i < |left| ensures SameBatch(bs[|bs| - |left| + i], left[i]) {
      assert SameBatch(bs[|bs| - |inFlight| + (d + i)], inFlight[d + i]);
    }
    if d > 0 { assert SameBatch(bs[|bs| - |inFlight| + (d - 1)], inFlight[d - 1]); }
  }

  // A report that is refused covers nothing that is not released already.
  lemma FlightRefuse(bs: seq<Message>, inFlight: seq<InFlight>, persistedAt: Option<Head>, lastReport: int, runId: string,
                     through: int, tick: nat, a: nat)
    requires FlightInv(bs, inFlight, persistedAt, lastReport, runId, tick) && HeadsInv(bs, runId, through, tick)
    requires lastReport < a < |bs| && persistedAt.Some? && bs[a].head.tick < persistedAt.value.tick
    ensures FlightInv(bs, inFlight, persistedAt, a, runId, tick)
  {
  }


  // ---- each step keeps the invariant -------------------------------------------------------------------------------------

  lemma WaitUpdated(p: Profile, s: System)
    requires Core(p, s)
    ensures Inv(p, s.(rec := UpdateWaiting(s.rec)))
  {
    hide CursorInv, RecordsInv, HeadsInv, AllCover, StoreInv, ReportInv, FlightInv, OrderInv, GatheredOf;
    var s' := s.(rec := UpdateWaiting(s.rec));
    assert GatheredOf(s') == GatheredOf(s) by { GatheredSame(s, s'); }
  }

  lemma CursorFacts(s: System)
    requires CursorInv(s.base, s.heldFrom, s.origin, s.log, s.cache, s.rec.runId, s.rec.cursor, s.rec.lastThroughSeq)
    ensures s.cache.next == s.base + |s.log|
    ensures PosOf(s) <= s.cache.next || PosOf(s) == s.origin
    ensures s.rec.lastThroughSeq + 1 <= s.cache.next || s.rec.lastThroughSeq + 1 <= s.origin
    ensures Span(s.log, s.base, s.origin, s.rec.lastThroughSeq + 1) == GatheredOf(s)
  {
    CacheNext(s.cache, s.base, s.log, s.heldFrom);
    hide CacheInv, Span;
    if s.rec.lastThroughSeq == -1 {
      NothingSpanned(s.log, s.base, s.origin, 0);
      NothingSpanned(s.log, s.base, s.origin, s.origin);
    }
  }

  lemma CacheNext(cache: Cache, base: nat, log: seq<TraceRecord>, heldFrom: nat)
    requires CacheInv(cache, base, log, heldFrom)
    ensures cache.next == base + |log|
  {
    hide Trimmed;
  }

  lemma NothingSpanned(log: seq<TraceRecord>, base: nat, from: nat, to: int)
    requires to <= from
    ensures Span(log, base, from, to) == []
  {
  }

  lemma GatheredSame(s: System, s': System)
    requires s'.log == s.log && s'.base == s.base && s'.origin == s.origin && s'.rec.cursor == s.rec.cursor
    ensures GatheredOf(s') == GatheredOf(s)
  {
  }

  lemma EmitKeeps(p: Profile, s: System, input: RecordInput, source: string)
    requires Enabled(s, Emit(input, source)) && Inv(p, s)
    ensures Inv(p, Next(p, s, Emit(input, source)))
  {
    hide RecordsInv, HeadsInv, AllCover, StoreInv, ReportInv, FlightInv, OrderInv, Push, CacheInv, HeldInv, WaitInv;
    var r := Stamp(input, s.cache.runId, s.cache.next, source);
    CursorEmit(s, input, source);
    SpanStable(s.log, s.base, s.origin, PosOf(s), r) by { CursorFacts(s); }
    CoverLogGrows(p, s.base, s.origin, s.log, BatchesOf(s.rec.sent), s.rec.runId, s.rec.lastThroughSeq, s.rec.simTick, r)
      by { CursorFacts(s); }
  }

  lemma GatherKeeps(p: Profile, s: System, tick: nat, time: real)
    requires Core(p, s) && tick >= s.rec.simTick
    ensures Core(p, s.(rec := Gather(p, s.rec.(simTick := tick, simTime := time), Since(s.cache, s.rec.cursor))))
  {
    hide Since, From, Span, Kept, Weight, NotPoses, BatchesOf;
    hide CursorInv, RecordsInv, HeadsInv, AllCover, StoreInv, ReportInv, FlightInv, OrderInv;
    var r := s.rec;
    var news := Since(s.cache, r.cursor);
    CollectSeesAll(s.base, s.heldFrom, s.origin, s.log, s.cache, r.runId, r.cursor, r.lastThroughSeq);
    CursorAdvances(s.base, s.heldFrom, s.origin, s.log, s.cache, r.runId, r.cursor, r.lastThroughSeq);
    RecordsGather(p, GatheredOf(s), r.sent, r.held, s.panelTaken, r.panel, r.handedOver, news);
    NothingWeighs(p);
    var r' := Gather(p, r.(simTick := tick, simTime := time), news);
    HeadsGrow(BatchesOf(r.sent), r.runId, r.lastThroughSeq, r'.lastThroughSeq, r.simTick, tick);
    OrderGrow(r.sent, r.lastThroughSeq, r'.lastThroughSeq);
    FlightGrow(BatchesOf(r.sent), r.inFlight, r.persistedAt, s.lastReport, r.runId, r.simTick, tick);
  }

  lemma NothingWeighs(p: Profile)
    ensures Weight(p, []) == 0
  {
  }

  lemma HeadsGrow(bs: seq<Message>, runId: string, through: int, through': int, tick: nat, tick': nat)
    requires HeadsInv(bs, runId, through, tick) && through <= through' && tick <= tick'
    ensures HeadsInv(bs, runId, through', tick')
  {
  }

  lemma OrderGrow(sent: seq<Message>, through: int, through': int)
    requires OrderInv(sent, through) && through <= through'
    ensures OrderInv(sent, through')
  {
  }

  lemma FlightGrow(bs: seq<Message>, inFlight: seq<InFlight>, persistedAt: Option<Head>, lastReport: int, runId: string,
                   tick: nat, tick': nat)
    requires FlightInv(bs, inFlight, persistedAt, lastReport, runId, tick) && tick <= tick'
    ensures FlightInv(bs, inFlight, persistedAt, lastReport, runId, tick')
  {
  }


  lemma FlushKeeps(p: Profile, s: System)
    requires Core(p, s) && s.rec.header
    ensures var s' := s.(rec := Flush(s.rec));
      Core(p, s') && s'.rec.held == [] && s'.rec.heldBytes == 0 && s'.rec.flow == s.rec.flow
  {
    hide CursorInv, RecordsInv, HeadsInv, AllCover, StoreInv, ReportInv, FlightInv, OrderInv, Span, RecordsOf, ItemsOf, BatchesOf;
    var r, bs := s.rec, BatchesOf(s.rec.sent);
    if r.held == [] && r.inFlight == [] && r.itemsSent == 0 {
      if r.persistedAt.Some? {
        FlightIdle(bs, r.persistedAt, s.lastReport, r.runId, r.simTick, r.simTime);
      }
    } else {
      var m := BatchMsg(r.held, Head(r.runId, r.lastThroughSeq, r.simTick, r.simTime));
      MessagesConcat(r.sent, [m]);
      OneBatch(m);
      RecordsSend(p, GatheredOf(s), r.sent, r.held, s.panelTaken, r.panel, r.handedOver, m.head);
      HeadsAppend(bs, m, r.runId, r.lastThroughSeq, r.simTick);
      assert RecordsOf(bs) + m.records == Kept(p, Span(s.log, s.base, s.origin, m.head.throughSeq + 1)) by {
        RecordsOfBatches(r.sent);
        CursorFacts(s);
        RecordsAre(p, GatheredOf(s), r.sent, r.held, s.panelTaken, r.panel, r.handedOver);
      }
      CoverAppend(p, s.base, s.origin, s.log, bs, m);
      OrderAppendBatch(r.sent, r.lastThroughSeq, m);
      FlightSend(bs, r.inFlight, r.persistedAt, s.lastReport, r.runId, r.simTick, m, InFlight(r.lastThroughSeq, |r.held|, r.heldBytes));
      StoreSend(r.sent, r.outbox, s.committed, s.store, s.storedItems, s.enqueued, [m], r.outbox, []);
      assert s.enqueued + [] == s.enqueued;
      ReportSend(r.sent, s.committed, s.reports, s.lastReport, [m]);
    }
  }

  lemma RecordsAre(p: Profile, gathered: seq<TraceRecord>, sent: seq<Message>, held: seq<TraceRecord>,
                   taken: seq<TraceRecord>, panel: seq<TraceRecord>, handedOver: nat)
    requires RecordsInv(p, gathered, sent, held, taken, panel, handedOver)
    ensures RecordsOf(sent) + held == Kept(p, gathered)
  {
  }


  // Sending more leaves what storage has taken as it was.
  lemma StoreSend(sent: seq<Message>, outbox: seq<Item>, committed: nat, store: seq<TraceRecord>, storedItems: seq<Item>,
                  enqueued: seq<Item>, ms: seq<Message>, outbox': seq<Item>, more: seq<Item>)
    requires StoreInv(sent, outbox, committed, store, storedItems, enqueued)
    requires ItemsOf(ms) + outbox' == outbox + more
    ensures StoreInv(sent + ms, outbox', committed, store, storedItems, enqueued + more)
  {
    assert (sent + ms)[..committed] == sent[..committed];
    MessagesConcat(sent, ms);
    assert (ItemsOf(sent) + ItemsOf(ms)) + outbox' == ItemsOf(sent) + (ItemsOf(ms) + outbox');
    assert ItemsOf(sent) + (outbox + more) == (ItemsOf(sent) + outbox) + more;
  }

  lemma ReportSend(sent: seq<Message>, committed: nat, reports: seq<nat>, lastReport: int, ms: seq<Message>)
    requires ReportInv(sent, committed, reports, lastReport)
    ensures ReportInv(sent + ms, committed, reports, lastReport)
  {
    assert (sent + ms)[..committed] == sent[..committed];
    MessagesConcat(sent, ms);
  }

  lemma RecordsSendItems(p: Profile, gathered: seq<TraceRecord>, sent: seq<Message>, held: seq<TraceRecord>,
                         taken: seq<TraceRecord>, panel: seq<TraceRecord>, handedOver: nat, ms: seq<Message>)
    requires RecordsInv(p, gathered, sent, held, taken, panel, handedOver) && RecordsOf(ms) == []
    ensures RecordsInv(p, gathered, sent + ms, held, taken, panel, handedOver)
  {
    hide Kept, NotPoses, RecordsOf;
    MessagesConcat(sent, ms);
    assert RecordsOf(sent) + [] == RecordsOf(sent);
  }

  // Items go out together with the outbox emptied, or one at a time with the outbox empty.
  lemma DispatchKeeps(p: Profile, s: System, items: seq<Item>, r': Recorder, enqueued': seq<Item>)
    requires Core(p, s)
    requires r' == Dispatch(s.rec.(heldBytes := r'.heldBytes, header := true, outbox := []), items)
    requires s.rec.outbox + (if s.rec.header then items else []) == items
    requires enqueued' == s.enqueued + (if s.rec.header then items else [])
    requires !s.rec.header ==> r'.heldBytes == s.rec.heldBytes
    requires s.rec.header ==> |items| > 0
    requires s.rec.header ==>
      forall k :: 0 <= k < |items| ==> items[k].refersFrom.Some? ==> s.rec.lastThroughSeq < items[k].refersFrom.value
    ensures Core(p, s.(rec := r', enqueued := enqueued'))
  {
    hide CursorInv, RecordsInv, HeadsInv, AllCover, StoreInv, ReportInv, FlightInv, OrderInv, Span, RecordsOf, ItemsOf, BatchesOf;
    var r, ms := s.rec, ItemMessages(items);
    ItemMessagesAre(items);
    MessagesConcat(r.sent, ms);
    RecordsSendItems(p, GatheredOf(s), r.sent, r.held, s.panelTaken, r.panel, r.handedOver, ms);
    OrderAppendItems(r.sent, r.lastThroughSeq, items);
    StoreSend(r.sent, r.outbox, s.committed, s.store, s.storedItems, s.enqueued, ms, [], if r.header then items else []);
    ReportSend(r.sent, s.committed, s.reports, s.lastReport, ms);
    assert s.enqueued + [] == s.enqueued;
    assert BatchesOf(r.sent) + [] == BatchesOf(r.sent);
  }

  lemma OutboxKeeps(p: Profile, s: System, item: Item)
    requires Core(p, s) && !s.rec.header
    ensures Core(p, s.(rec := s.rec.(heldBytes := s.rec.heldBytes + item.bytes, outbox := s.rec.outbox + [item]),
                       enqueued := s.enqueued + [item]))
  {
    hide CursorInv, RecordsInv, HeadsInv, AllCover, ReportInv, FlightInv, OrderInv, Span, RecordsOf, BatchesOf;
    var s' := s.(rec := s.rec.(heldBytes := s.rec.heldBytes + item.bytes, outbox := s.rec.outbox + [item]),
                 enqueued := s.enqueued + [item]);
    GatheredSame(s, s');
    assert ItemsOf(s.rec.sent) + (s.rec.outbox + [item]) == (ItemsOf(s.rec.sent) + s.rec.outbox) + [item];
  }

  lemma EnqueueKeeps(p: Profile, s: System, item: Item)
    requires Enabled(s, DoEnqueue(item)) && Inv(p, s)
    ensures Inv(p, Next(p, s, DoEnqueue(item)))
  {
    hide CursorInv, RecordsInv, HeadsInv, AllCover, StoreInv, ReportInv, FlightInv, OrderInv, WaitInv, UpdateWaiting;
    hide BatchesOf, GatheredOf, ItemMessages;
    var r := s.rec;
    if r.header {
      var r' := Dispatch(r.(heldBytes := r.heldBytes + item.bytes), [item]);
      assert r.lastThroughSeq < PosOf(s) by { PosPassesThrough(s); }
      assert s.rec.outbox + [item] == [item];
      DispatchKeeps(p, s, [item], r', s.enqueued + [item]);
      WaitUpdated(p, s.(rec := r', enqueued := s.enqueued + [item]));
    } else {
      OutboxKeeps(p, s, item);
      WaitUpdated(p, s.(rec := r.(heldBytes := r.heldBytes + item.bytes, outbox := r.outbox + [item]),
                        enqueued := s.enqueued + [item]));
    }
  }

  lemma PosPassesThrough(s: System)
    requires CursorInv(s.base, s.heldFrom, s.origin, s.log, s.cache, s.rec.runId, s.rec.cursor, s.rec.lastThroughSeq)
    ensures s.rec.lastThroughSeq < PosOf(s)
  {
  }

  lemma HeaderKeeps(p: Profile, s: System)
    requires Enabled(s, DoHeaderStored) && Inv(p, s)
    ensures Inv(p, Next(p, s, DoHeaderStored))
  {
    hide CursorInv, RecordsInv, HeadsInv, AllCover, StoreInv, ReportInv, FlightInv, OrderInv, WaitInv, UpdateWaiting, Flush;
    if !s.rec.header {
      var r' := Dispatch(s.rec.(header := true, outbox := []), s.rec.outbox);
      assert s.rec.outbox + [] == s.rec.outbox && s.enqueued + [] == s.enqueued;
      DispatchKeeps(p, s, s.rec.outbox, r', s.enqueued);
      var s' := s.(rec := r');
      FlushKeeps(p, s');
      WaitUpdated(p, s'.(rec := Flush(r')));
    }
  }

  lemma CollectKeeps(p: Profile, s: System, tick: nat, time: real)
    requires Inv(p, s) && tick >= s.rec.simTick
    ensures var s' := Next(p, s, DoCollect(tick, time));
      && Inv(p, s') && s'.rec.header == s.rec.header
      && (s.rec.header ==> s'.rec.held == [] && s'.rec.heldBytes == 0)
  {
    hide CursorInv, RecordsInv, HeadsInv, AllCover, StoreInv, ReportInv, FlightInv, OrderInv, WaitInv, HeldInv, Flush, Gather;
    var r1 := Gather(p, s.rec.(simTick := tick, simTime := time), Since(s.cache, s.rec.cursor));
    GatherKeeps(p, s, tick, time);
    var s1 := s.(rec := r1);
    GatherKeepsHeader(p, s.rec.(simTick := tick, simTime := time), Since(s.cache, s.rec.cursor));
    if r1.header {
      FlushKeeps(p, s1);
      FlushKeepsHeader(r1);
      WaitUpdated(p, s1.(rec := Flush(r1)));
    } else {
      WaitUpdated(p, s1);
    }
  }

  lemma GatherKeepsHeader(p: Profile, r: Recorder, news: seq<TraceRecord>)
    ensures Gather(p, r, news).header == r.header
  {
  }

  lemma FlushKeepsHeader(r: Recorder)
    ensures Flush(r).header == r.header
  {
  }

  lemma CommitKeeps(p: Profile, s: System, n: nat)
    requires Enabled(s, Commit(n)) && Inv(p, s)
    ensures Inv(p, Next(p, s, Commit(n)))
  {
    hide CursorInv, RecordsInv, HeadsInv, AllCover, FlightInv, OrderInv, WaitInv, HeldInv, BatchesOf, ItemsOf, RecordsOf;
    var sent, c := s.rec.sent, s.committed;
    assert sent[..c + n] == sent[..c] + sent[c..c + n];
    MessagesConcat(sent[..c], sent[c..c + n]);
    MessagesSplit(sent, c + n);
    GatheredSame(s, Next(p, s, Commit(n)));
  }

  lemma ReportKeeps(p: Profile, s: System)
    requires Enabled(s, Report) && Inv(p, s)
    ensures Inv(p, Next(p, s, Report))
  {
    hide Inv, Arrive;
    ReportOfKeeps(p, s, s.reports[0]);
  }

  lemma ReportOfKeeps(p: Profile, s: System, a: nat)
    requires a < |BatchesOf(s.rec.sent)| && s.reports != [] && s.reports[0] == a && Inv(p, s)
    ensures Inv(p, Arrive(s.(reports := s.reports[1..], lastReport := a), BatchesOf(s.rec.sent)[a].head))
  {
    hide CursorInv, RecordsInv, HeadsInv, AllCover, StoreInv, ReportInv, FlightInv, OrderInv, WaitInv, BatchesOf, Release, MarkPersisted;
    ReportArrives(s.rec.sent, s.committed, s.reports, s.lastReport);
    var r, bs := s.rec, BatchesOf(s.rec.sent);
    var head := bs[a].head;
    HeadFacts(bs, r.runId, r.lastThroughSeq, r.simTick, a);
    var s0 := s.(reports := s.reports[1..], lastReport := a);
    if Accepts(r, head) {
      FlightAccept(bs, r.inFlight, r.persistedAt, s.lastReport, r.runId, r.lastThroughSeq, r.simTick, a);
      CursorMark(s, head.throughSeq);
      var s1 := s0.(rec := r.(inFlight := Release(r.inFlight, head.throughSeq), persistedAt := Some(head)),
                    cache := MarkPersisted(s.cache, head.throughSeq));
      GatheredSame(s, s1);
      assert Core(p, s1);
      WaitUpdated(p, s1);
    } else {
      FlightRefuse(bs, r.inFlight, r.persistedAt, s.lastReport, r.runId, r.lastThroughSeq, r.simTick, a);
      GatheredSame(s, s0);
    }
  }

  lemma ReportArrives(sent: seq<Message>, committed: nat, reports: seq<nat>, lastReport: int)
    requires ReportInv(sent, committed, reports, lastReport) && reports != []
    ensures ReportInv(sent, committed, reports[1..], reports[0]) && lastReport < reports[0]
  {
  }

  lemma HeadFacts(bs: seq<Message>, runId: string, through: int, tick: nat, a: nat)
    requires HeadsInv(bs, runId, through, tick) && a < |bs|
    ensures bs[a].BatchMsg? && bs[a].head.runId == runId && bs[a].head.throughSeq <= through
  {
  }

  lemma StepKeeps(p: Profile, s: System, step: Step)
    requires Enabled(s, step) && Inv(p, s)
    ensures Inv(p, Next(p, s, step))
  {
    hide Inv;
    match step {
      case Emit(input, source) => EmitKeeps(p, s, input, source);
      case DoCollect(tick, time) => CollectKeeps(p, s, tick, time);
      case DoEnqueue(item) => EnqueueKeeps(p, s, item);
      case DoHeaderStored => HeaderKeeps(p, s);
      case Commit(n) => CommitKeeps(p, s, n);
      case Report => ReportKeeps(p, s);
      case ForeignReport(head) => assert Next(p, s, step) == s;
      case DoTakePanel => PanelKeeps(p, s);
    }
  }

  lemma PanelKeeps(p: Profile, s: System)
    requires Enabled(s, DoTakePanel) && Inv(p, s)
    ensures Inv(p, Next(p, s, DoTakePanel))
  {
    hide CursorInv, HeadsInv, AllCover, StoreInv, ReportInv, FlightInv, OrderInv, BatchesOf, Kept, NotPoses, RecordsOf;
    GatheredSame(s, Next(p, s, DoTakePanel));
    assert s.panelTaken + s.rec.panel + [] == s.panelTaken + s.rec.panel;
  }

  lemma InitEstablishes(p: Profile, s: System, fromSeq: nat)
    requires Init(s, fromSeq)
    ensures Inv(p, s)
  {
    assert GatheredOf(s) == [] && Kept(p, []) == [];
    assert BatchesOf(s.rec.sent) == [];
    hide CacheInv, Span, Covers, Kept, Aligned;
  }
}
