// Live subscriptions (packages/storage/src/live-subscriptions.ts): a filter and a view, pushed in batches at most once an
// interval, and sampled evenly above a cap.
module LiveViews {
  import opened Wrappers
  import opened Trace
  import opened Filters

  datatype Limits = Limits(interval: real, maxPerBatch: nat, maxSubscriptions: nat)

  datatype Batch = Batch(viewId: string, runId: string, records: seq<TraceRecord>, samples: seq<Sample>, matched: nat,
                         shown: nat, totalMatched: nat, totalShown: nat, sampled: bool)

  // `timer` is when the armed timer is due; `lastEmitAt` is absent before the first emit.
  datatype Sub = Sub(viewId: string, runId: string, ast: Ast, records: seq<TraceRecord>, samples: seq<Sample>, matched: nat,
                     totalMatched: nat, totalShown: nat, lastEmitAt: Option<real>, timer: Option<real>)

  function NewSub(viewId: string, runId: string, ast: Ast): Sub {
    Sub(viewId, runId, ast, [], [], 0, 0, 0, None, None)
  }

  // A new filter: nothing waits, no timer is armed, and the totals begin at zero.
  function Changed(s: Sub, ast: Ast): Sub {
    s.(ast := ast, records := [], samples := [], matched := 0, totalMatched := 0, totalShown := 0, timer := None)
  }

  function Matching(v: Vocabulary, s: Sub, rs: seq<TraceRecord>): seq<TraceRecord> {
    if rs == [] then []
    else (if rs[0].runId == s.runId && MatchesRecord(v, s.ast, rs[0]) then [rs[0]] else []) + Matching(v, s, rs[1..])
  }

  function MatchingSamples(v: Vocabulary, s: Sub, xs: seq<Sample>): seq<Sample> {
    if xs == [] then []
    else (if MatchesSample(v, s.ast, xs[0]) then [xs[0]] else []) + MatchingSamples(v, s, xs[1..])
  }

  function Max(x: real, y: real): real { if x >= y then x else y }

  function Scheduled(s: Sub, interval: real, now: real): Sub {
    if s.timer.Some? then s
    else s.(timer := Some(now + if s.lastEmitAt.None? then 0.0 else Max(0.0, s.lastEmitAt.value + interval - now)))
  }

  function Took(s: Sub, rs: seq<TraceRecord>, xs: seq<Sample>): Sub {
    s.(records := s.records + rs, samples := s.samples + xs, matched := s.matched + |rs| + |xs|)
  }

  function OfferedRecords(v: Vocabulary, s: Sub, interval: real, rs: seq<TraceRecord>, now: real): Sub {
    if s.ast.target != Records || Matching(v, s, rs) == [] then s
    else Scheduled(Took(s, Matching(v, s, rs), []), interval, now)
  }

  function OfferedSamples(v: Vocabulary, s: Sub, interval: real, runId: string, xs: seq<Sample>, now: real): Sub {
    if s.ast.target != Samples || s.runId != runId || MatchingSamples(v, s, xs) == [] then s
    else Scheduled(Took(s, [], MatchingSamples(v, s, xs)), interval, now)
  }

  // The i-th of `cap` positions spread over n.
  function Position(i: nat, n: nat, cap: nat): nat
    requires i < cap
  {
    (i * n) / cap
  }

  lemma PositionInside(i: nat, n: nat, cap: nat)
    requires i < cap < n
    ensures Position(i, n, cap) < n
  {
    assert i * n < cap * n;
  }

  function Pick<T>(items: seq<T>, cap: nat): seq<T> {
    if |items| <= cap then items
    else seq(cap, i requires 0 <= i < cap => PositionInside(i, |items|, cap); items[Position(i, |items|, cap)])
  }

  function Emitted(s: Sub, cap: nat): Batch {
    var records, samples := Pick(s.records, cap), Pick(s.samples, cap);
    var shown := |records| + |samples|;
    Batch(s.viewId, s.runId, records, samples, s.matched, shown, s.totalMatched + s.matched, s.totalShown + shown, shown < s.matched)
  }

  function AfterEmit(s: Sub, cap: nat, now: real): Sub {
    if s.matched == 0 then s
    else
      var b := Emitted(s, cap);
      s.(totalMatched := b.totalMatched, totalShown := b.totalShown, records := [], samples := [], matched := 0,
         lastEmitAt := Some(now))
  }

  // ---- the life of one subscription ----------------------------------------------------------------------------------------------

  datatype Event =
    | Offer(records: seq<TraceRecord>)
    | OfferMetrics(runId: string, samples: seq<Sample>)
    | Fire
    | Flush
    | Change(ast: Ast)

  function Next(v: Vocabulary, l: Limits, s: Sub, e: Event, now: real): Sub {
    match e
    case Offer(rs) => OfferedRecords(v, s, l.interval, rs, now)
    case OfferMetrics(runId, xs) => OfferedSamples(v, s, l.interval, runId, xs, now)
    case Fire => AfterEmit(s.(timer := None), l.maxPerBatch, now)
    case Flush => AfterEmit(s, l.maxPerBatch, now)
    case Change(ast) => Changed(s, ast)
  }

  // What an event pushes to the view, with when.
  function Pushed(l: Limits, s: Sub, e: Event, now: real): seq<(real, Batch)> {
    if (e.Fire? || e.Flush?) && s.matched > 0 then [(now, Emitted(s, l.maxPerBatch))] else []
  }

  // A timer fires once it is due, time does not go back.
  predicate Possible(s: Sub, e: Event, now: real, before: real) {
    before <= now && (e.Fire? ==> s.timer.Some? && s.timer.value <= now)
  }

  // How many of what an event offers match.
  function MatchedBy(v: Vocabulary, s: Sub, e: Event): nat {
    match e
    case Offer(rs) => if s.ast.target == Records then |Matching(v, s, rs)| else 0
    case OfferMetrics(runId, xs) => if s.ast.target == Samples && s.runId == runId then |MatchingSamples(v, s, xs)| else 0
    case _ => 0
  }

  datatype Timed = Timed(e: Event, at: real)

  predicate Life(v: Vocabulary, l: Limits, s: Sub, es: seq<Timed>, before: real)
    decreases |es|
  {
    es == [] || (Possible(s, es[0].e, es[0].at, before) && Life(v, l, Next(v, l, s, es[0].e, es[0].at), es[1..], es[0].at))
  }

  function At(v: Vocabulary, l: Limits, s: Sub, es: seq<Timed>): Sub
    decreases |es|
  {
    if es == [] then s else At(v, l, Next(v, l, s, es[0].e, es[0].at), es[1..])
  }

  function Pushes(v: Vocabulary, l: Limits, s: Sub, es: seq<Timed>): seq<(real, Batch)>
    decreases |es|
  {
    if es == [] then []
    else Pushed(l, s, es[0].e, es[0].at) + Pushes(v, l, Next(v, l, s, es[0].e, es[0].at), es[1..])
  }

  // The matching items offered since the subscription, or since its last change.
  function Offered(v: Vocabulary, l: Limits, s: Sub, es: seq<Timed>, count: nat): nat
    decreases |es|
  {
    if es == [] then count
    else
      Offered(v, l, Next(v, l, s, es[0].e, es[0].at), es[1..], if es[0].e.Change? then 0 else count + MatchedBy(v, s, es[0].e))
  }

  // What waits is what matched since the last push, and it has a timer.
  ghost predicate SubInv(l: Limits, s: Sub) {
    && s.matched == |s.records| + |s.samples|
    && (s.matched > 0 ==> s.timer.Some?)
  }

  // A timer is not due within an interval of the last push.
  ghost predicate TimerInv(l: Limits, s: Sub) {
    s.timer.Some? && s.lastEmitAt.Some? ==> s.timer.value >= s.lastEmitAt.value + l.interval
  }

  lemma NextKeeps(v: Vocabulary, l: Limits, s: Sub, e: Event, now: real)
    requires SubInv(l, s)
    ensures SubInv(l, Next(v, l, s, e, now))
    ensures var s' := Next(v, l, s, e, now);
      s'.totalMatched + s'.matched == if e.Change? then 0 else s.totalMatched + s.matched + MatchedBy(v, s, e)
    ensures TimerInv(l, s) && !e.Flush? ==> TimerInv(l, Next(v, l, s, e, now))
  {
    hide Matching, MatchingSamples, Pick;
  }

  // Matches are conserved and never stall: what was counted out and what waits is just what matched since the subscription
  // or its last change, and what waits has a timer.
  lemma {:induction false} MatchesConserved(v: Vocabulary, l: Limits, s: Sub, es: seq<Timed>, before: real, count: nat)
    requires SubInv(l, s) && s.totalMatched + s.matched == count && Life(v, l, s, es, before)
    ensures var t := At(v, l, s, es);
      && SubInv(l, t)
      && t.totalMatched + t.matched == Offered(v, l, s, es, count)
      && (t.matched > 0 ==> t.timer.Some?)
    decreases |es|
  {
    hide SubInv, Next, MatchedBy;
    if es == [] { assert SubInv(l, s) ==> (s.matched > 0 ==> s.timer.Some?) by { WaitingHasTimer(l, s); } } else {
      NextKeeps(v, l, s, es[0].e, es[0].at);
      MatchesConserved(v, l, Next(v, l, s, es[0].e, es[0].at), es[1..], es[0].at,
                       if es[0].e.Change? then 0 else count + MatchedBy(v, s, es[0].e));
    }
  }

  lemma WaitingHasTimer(l: Limits, s: Sub)
    ensures SubInv(l, s) ==> (s.matched > 0 ==> s.timer.Some?)
  {
  }

  // Pushes at least an interval apart, the first at least an interval after `last`.
  ghost predicate Spaced(ps: seq<(real, Batch)>, last: Option<real>, interval: real) {
    && (forall k :: 0 < k < |ps| ==> ps[k].0 >= ps[k - 1].0 + interval)
    && (ps != [] && last.Some? ==> ps[0].0 >= last.value + interval)
  }

  lemma SpacedCons(p: (real, Batch), ps: seq<(real, Batch)>, last: Option<real>, interval: real)
    requires Spaced(ps, Some(p.0), interval) && (last.Some? ==> p.0 >= last.value + interval)
    ensures Spaced([p] + ps, last, interval)
  {
    forall k | 0 < k < |[p] + ps| ensures ([p] + ps)[k].0 >= ([p] + ps)[k - 1].0 + interval {
      if k > 1 { assert ps[k - 1].0 >= ps[k - 2].0 + interval; }
    }
  }

  // Unless it is flushed, two pushes of a subscription are at least the interval apart.
  lemma {:induction false} PushesSpaced(v: Vocabulary, l: Limits, s: Sub, es: seq<Timed>, before: real)
    requires SubInv(l, s) && TimerInv(l, s) && Life(v, l, s, es, before)
    requires forall k :: 0 <= k < |es| ==> !es[k].e.Flush?
    ensures Spaced(Pushes(v, l, s, es), s.lastEmitAt, l.interval)
    decreases |es|
  {
    if es != [] {
      var s', e, now := Next(v, l, s, es[0].e, es[0].at), es[0].e, es[0].at;
      NextKeeps(v, l, s, e, now);
      LastEmit(v, l, s, e, now);
      hide SubInv, Next, Spaced;
      PushesSpaced(v, l, s', es[1..], now);
      var ps := Pushes(v, l, s', es[1..]);
      if e.Fire? && s.matched > 0 {
        SpacedCons((now, Emitted(s, l.maxPerBatch)), ps, s.lastEmitAt, l.interval);
      } else {
        assert Pushed(l, s, e, now) == [];
        assert [] + ps == ps;
      }
    } else {
      assert Pushes(v, l, s, es) == [];
    }
  }

  lemma LastEmit(v: Vocabulary, l: Limits, s: Sub, e: Event, now: real)
    ensures Next(v, l, s, e, now).lastEmitAt == if (e.Fire? || e.Flush?) && s.matched > 0 then Some(now) else s.lastEmitAt
  {
    hide Matching, MatchingSamples, Pick;
  }

  // ---- pushes of a timer after a flush ---------------------------------------------------------------------------------------------

  // The subscription before the k-th event of its life.
  function Before(v: Vocabulary, l: Limits, s: Sub, es: seq<Timed>, k: nat): Sub
    requires k <= |es|
    decreases k
  {
    if k == 0 then s else Before(v, l, Next(v, l, s, es[0].e, es[0].at), es[1..], k - 1)
  }

  predicate PushesAt(v: Vocabulary, l: Limits, s: Sub, es: seq<Timed>, k: nat)
    requires k < |es|
  {
    (es[k].e.Fire? || es[k].e.Flush?) && Before(v, l, s, es, k).matched > 0
  }

  // An event that takes the timer away.
  predicate Resets(e: Event) { e.Fire? || e.Change? }

  // A timer is due within an interval from now.
  ghost predicate DueInv(l: Limits, s: Sub, now: real) {
    && (s.lastEmitAt.Some? ==> s.lastEmitAt.value <= now)
    && (s.timer.Some? ==> s.timer.value <= now + l.interval)
  }

  lemma DueKept(v: Vocabulary, l: Limits, s: Sub, e: Event, now: real, before: real)
    requires l.interval >= 0.0 && DueInv(l, s, before) && Possible(s, e, now, before)
    ensures DueInv(l, Next(v, l, s, e, now), now)
  {
    hide Matching, MatchingSamples, Pick;
  }

  // What an event does to the timer and the last push.
  lemma TimerNext(v: Vocabulary, l: Limits, s: Sub, e: Event, now: real)
    requires SubInv(l, s)
    ensures var s', pushes := Next(v, l, s, e, now), (e.Fire? || e.Flush?) && s.matched > 0;
      && SubInv(l, s')
      && s'.lastEmitAt == (if pushes then Some(now) else s.lastEmitAt)
      && (Resets(e) ==> s'.timer == None)
      && (!Resets(e) && s.timer.Some? ==> s'.timer == s.timer)
      && (!pushes && (TimerInv(l, s) || Resets(e)) ==> TimerInv(l, s'))
      && (pushes ==> s.timer.Some?)
  {
    NextKeeps(v, l, s, e, now);
    hide Matching, MatchingSamples, Pick;
  }

  // Up to the next push, the timer stays what it is until an event takes it away; one armed after that is not due within an interval
  // of the last push.
  lemma {:induction false} UntilPush(v: Vocabulary, l: Limits, s: Sub, es: seq<Timed>, before: real, m: nat)
    requires SubInv(l, s) && Life(v, l, s, es, before) && m < |es| && forall k: nat :: k < m ==> !PushesAt(v, l, s, es, k)
    ensures var t := Before(v, l, s, es, m);
      && t.lastEmitAt == s.lastEmitAt
      && (TimerInv(l, s) || (exists k :: 0 <= k < m && Resets(es[k].e)) ==> TimerInv(l, t))
      && (s.timer.Some? && (forall k :: 0 <= k < m ==> !Resets(es[k].e)) ==> t.timer == s.timer)
      && (es[m].e.Fire? ==> t.timer.Some? && t.timer.value <= es[m].at)
    decreases m
  {
    hide SubInv, TimerInv, Next;
    if m > 0 {
      var s', rest := Next(v, l, s, es[0].e, es[0].at), es[1..];
      assert !PushesAt(v, l, s, es, 0);
      TimerNext(v, l, s, es[0].e, es[0].at);
      forall k: nat | k < m - 1 ensures !PushesAt(v, l, s', rest, k) { assert !PushesAt(v, l, s, es, k + 1); }
      UntilPush(v, l, s', rest, es[0].at, m - 1);
      ResetsOn(es, m);
    }
  }

  lemma ResetsOn(es: seq<Timed>, m: nat)
    requires 0 < m <= |es|
    ensures (exists k :: 0 <= k < m && Resets(es[k].e)) <==> Resets(es[0].e) || exists k :: 0 <= k < m - 1 && Resets(es[1..][k].e)
    ensures (forall k :: 0 <= k < m ==> !Resets(es[k].e)) <==> !Resets(es[0].e) && forall k :: 0 <= k < m - 1 ==> !Resets(es[1..][k].e)
  {
    hide Resets;
    assert forall k :: 0 <= k < m - 1 ==> es[1..][k] == es[k + 1];
    assert forall k :: 1 <= k < m ==> es[k] == es[1..][k - 1];
  }

  // No timer goes off and no filter changes between two events.
  ghost predicate OneTimer(es: seq<Timed>, i: nat, j: nat)
    requires j <= |es|
  {
    forall k :: i < k < j ==> !Resets(es[k].e)
  }

  // A timer's push follows the push before it, whatever a life brings, by less than an interval just when that one was a flush and the
  // timer, armed before it, goes off within an interval of it; and it is due within one.
  lemma {:induction false} PushGap(v: Vocabulary, l: Limits, s: Sub, es: seq<Timed>, before: real, i: nat, j: nat)
    requires l.interval >= 0.0 && SubInv(l, s) && DueInv(l, s, before) && Life(v, l, s, es, before)
    requires i < j < |es| && es[j].e.Fire? && PushesAt(v, l, s, es, i) && PushesAt(v, l, s, es, j)
    requires forall k: nat :: i < k < j ==> !PushesAt(v, l, s, es, k)
    ensures es[j].at < es[i].at + l.interval ==> es[i].e.Flush? && OneTimer(es, i, j)
    ensures es[i].e.Flush? && OneTimer(es, i, j) ==>
      && Before(v, l, s, es, j).timer == Before(v, l, s, es, i).timer
      && Before(v, l, s, es, j).timer.Some? && Before(v, l, s, es, j).timer.value <= es[i].at + l.interval
    decreases i
  {
    hide SubInv, DueInv, Next, TimerInv;
    var s', rest := Next(v, l, s, es[0].e, es[0].at), es[1..];
    TimerNext(v, l, s, es[0].e, es[0].at);
    DueKept(v, l, s, es[0].e, es[0].at, before);
    forall k: nat | k < |rest| ensures PushesAt(v, l, s', rest, k) == PushesAt(v, l, s, es, k + 1) {}
    OneTimerOn(es, i, j);
    if i > 0 {
      PushGap(v, l, s', rest, es[0].at, i - 1, j - 1);
    } else {
      UntilPush(v, l, s', rest, es[0].at, j - 1);
      DueOf(l, s', es[0].at);
      NotDue(l, Before(v, l, s', rest, j - 1), s');
    }
  }

  lemma OneTimerOn(es: seq<Timed>, i: nat, j: nat)
    requires i < j < |es|
    ensures i > 0 ==> (OneTimer(es, i, j) <==> OneTimer(es[1..], i - 1, j - 1))
    ensures i == 0 ==> (OneTimer(es, i, j) <==> forall k :: 0 <= k < j - 1 ==> !Resets(es[1..][k].e))
  {
    hide Resets;
    assert forall k :: 0 <= k < j - 1 ==> es[1..][k] == es[k + 1];
    assert forall k :: 1 <= k < j ==> es[k] == es[1..][k - 1];
  }

  lemma DueOf(l: Limits, s: Sub, now: real)
    requires DueInv(l, s, now)
    ensures s.timer.Some? ==> s.timer.value <= now + l.interval
  {
  }

  lemma NotDue(l: Limits, t: Sub, s: Sub)
    ensures TimerInv(l, t) && t.timer.Some? && t.lastEmitAt.Some? ==> t.timer.value >= t.lastEmitAt.value + l.interval
    ensures s.timer.None? ==> TimerInv(l, s)
  {
  }

  // It does so in a life from the subscription on: records come and are flushed, more come, and the timer of the first pushes them.
  lemma FlushBreaksSpacing(v: Vocabulary, l: Limits, viewId: string, runId: string, ast: Ast, rs: seq<TraceRecord>, now: real)
    requires ast.target == Records && Matching(v, NewSub(viewId, runId, ast), rs) != [] && l.interval > 0.0
    ensures var s := NewSub(viewId, runId, ast);
      var es := [Timed(Offer(rs), now), Timed(Flush, now), Timed(Offer(rs), now), Timed(Fire, now)];
      && SubInv(l, s) && DueInv(l, s, now) && Life(v, l, s, es, now)
      && |Pushes(v, l, s, es)| == 2 && Pushes(v, l, s, es)[0].0 == now == Pushes(v, l, s, es)[1].0
  {
    var s := NewSub(viewId, runId, ast);
    var e1, e2, e3, e4 := Timed(Offer(rs), now), Timed(Flush, now), Timed(Offer(rs), now), Timed(Fire, now);
    var es := [e1, e2, e3, e4];
    var s1 := Next(v, l, s, Offer(rs), now);
    var s2 := Next(v, l, s1, Flush, now);
    SameMatching(v, s, s2, rs);
    hide Matching, Pick;
    assert s1.timer == Some(now) && s1.matched > 0 && s2.timer == Some(now) && s2.matched == 0;
    var s3 := Next(v, l, s2, Offer(rs), now);
    assert s3.timer == Some(now) && s3.matched > 0;
    hide Next, Emitted;
    assert es[1..] == [e2, e3, e4] && [e2, e3, e4][1..] == [e3, e4] && [e3, e4][1..] == [e4] && [e4][1..] == [];
    assert Life(v, l, s3, [e4], now) && |Pushes(v, l, s3, [e4])| == 1 && Pushes(v, l, s3, [e4])[0].0 == now;
    assert Life(v, l, s2, [e3, e4], now) && Pushes(v, l, s2, [e3, e4]) == Pushes(v, l, s3, [e4]);
    assert Life(v, l, s1, [e2, e3, e4], now);
    assert Pushes(v, l, s1, [e2, e3, e4]) == Pushed(l, s1, Flush, now) + Pushes(v, l, s2, [e3, e4]);
    assert Pushes(v, l, s, es) == Pushes(v, l, s1, [e2, e3, e4]);
  }

  lemma {:induction false} SameMatching(v: Vocabulary, s: Sub, s': Sub, rs: seq<TraceRecord>)
    requires s.runId == s'.runId && s.ast == s'.ast
    ensures Matching(v, s, rs) == Matching(v, s', rs)
  {
    hide MatchesRecord;
    if rs != [] { SameMatching(v, s, s', rs[1..]); }
  }

  // ---- sampling ----------------------------------------------------------------------------------------------------------------

  lemma PositionsSpread(i: nat, n: nat, cap: nat)
    requires i + 1 < cap < n
    ensures Position(i, n, cap) + n / cap <= Position(i + 1, n, cap) <= Position(i, n, cap) + n / cap + 1
    ensures Position(i, n, cap) < Position(i + 1, n, cap)
  {
    var a, q, r := (i * n) / cap, n / cap, n % cap;
    assert (i + 1) * n == i * n + n;
    DivAdd(i * n, n, cap);
    assert n == q * cap + r;
    assert q < 1 ==> q == 0;
  }

  lemma DivAdd(x: nat, y: nat, c: nat)
    requires c > 0
    ensures x / c + y / c <= (x + y) / c <= x / c + y / c + 1
  {
    var p, q, r := x / c, y / c, (x + y) / c;
    assert x == p * c + x % c && y == q * c + y % c && x + y == r * c + (x + y) % c;
    assert (p + q) * c == p * c + q * c;
    assert (p + q + 1) * c == p * c + q * c + c;
    if r < p + q { QuotientGap(r, p + q, c); }
    if r > p + q + 1 { QuotientGap(p + q + 1, r, c); }
  }

  lemma AddTimes(a: int, b: int, c: int)
    ensures (a + b) * c == a * c + b * c
  {
  }

  lemma QuotientGap(a: int, b: int, c: nat)
    requires a < b
    ensures a * c + c <= b * c
  {
    var d: nat := b - a - 1;
    assert b * c == (a + 1 + d) * c;
    AddTimes(a, 1 + d, c);
    AddTimes(1, d, c);
  }

  // A sampled batch shows exactly the cap, at strictly increasing, evenly spaced positions from the first item on; a batch
  // under the cap shows everything.
  lemma PickSpreads<T>(items: seq<T>, cap: nat)
    ensures |Pick(items, cap)| == if |items| <= cap then |items| else cap
    ensures |items| <= cap ==> Pick(items, cap) == items
    ensures |items| > cap ==> forall i :: 0 <= i < cap ==>
      Position(i, |items|, cap) < |items| && Pick(items, cap)[i] == items[Position(i, |items|, cap)]
    ensures |items| > cap > 0 ==> Position(0, |items|, cap) == 0
    ensures |items| > cap ==> forall i :: 0 <= i < cap - 1 ==>
      && Position(i, |items|, cap) < Position(i + 1, |items|, cap)
      && |items| / cap <= Position(i + 1, |items|, cap) - Position(i, |items|, cap) <= |items| / cap + 1
  {
    if |items| > cap {
      forall i | 0 <= i < cap ensures Position(i, |items|, cap) < |items| { PositionInside(i, |items|, cap); }
      forall i | 0 <= i < cap - 1
        ensures Position(i, |items|, cap) < Position(i + 1, |items|, cap)
        ensures |items| / cap <= Position(i + 1, |items|, cap) - Position(i, |items|, cap) <= |items| / cap + 1
      {
        PositionsSpread(i, |items|, cap);
      }
    }
  }

  // ---- the subscriptions of the storage worker -------------------------------------------------------------------------------------

  datatype LiveError = InvalidFilter | DuplicateView | UnknownView | TooMany | InvalidView

  predicate IsViewChar(c: char) { IsLower(c) || IsUpper(c) || IsDigit(c) || c == '.' || c == '_' || c == ':' || c == '-' }

  predicate IsView(id: string) { 1 <= |id| <= 64 && AllOf(id, IsViewChar) }

  predicate IsRunId(id: string) { |id| == 10 && id[..4] == "run-" && AllOf(id[4..], IsDigit) }

  class LiveSubscriptions {
    const vocabulary: Vocabulary
    const limits: Limits
    var subs: map<string, Sub>
    // The view ids in the order they were subscribed.
    var order: seq<string>
    // What was pushed to the views.
    var pushed: seq<Batch>

    ghost predicate Valid()
      reads this
    {
      && Distinct(order, subs)
      && (forall id :: id in subs ==> SubInv(limits, subs[id]) && subs[id].viewId == id)
    }

    constructor (vocabulary: Vocabulary, limits: Limits)
      ensures Valid() && subs == map[] && pushed == []
      ensures this.vocabulary == vocabulary && this.limits == limits
    {
      this.vocabulary, this.limits := vocabulary, limits;
      subs, order, pushed := map[], [], [];
    }

    method Subscribe(viewId: string, runId: string, filter: string) returns (r: Result<(), LiveError>)
      requires Valid()
      modifies this`subs, this`order
      ensures Valid()
      ensures r.Ok? <==> IsView(viewId) && IsRunId(runId) && viewId !in old(subs) && |old(subs)| < limits.maxSubscriptions
                         && ParseOf(vocabulary, filter).Ok?
      ensures r == Err(InvalidView) <==> !IsView(viewId) || !IsRunId(runId)
      ensures r == Err(DuplicateView) <==> IsView(viewId) && IsRunId(runId) && viewId in old(subs)
      ensures r == Err(TooMany) ==> |old(subs)| >= limits.maxSubscriptions
      ensures r == Err(InvalidFilter) ==> ParseOf(vocabulary, filter).Err? && |old(subs)| < limits.maxSubscriptions
      ensures r != Err(UnknownView)
      ensures order == old(order) + if r.Ok? then [viewId] else []
      ensures subs == if r.Ok? then old(subs)[viewId := NewSub(viewId, runId, ParseOf(vocabulary, filter).value)] else old(subs)
    {
      hide ParseOf, IsView, IsRunId;
      if !IsView(viewId) || !IsRunId(runId) { return Err(InvalidView); }
      if viewId in subs { return Err(DuplicateView); }
      if |subs| >= limits.maxSubscriptions { return Err(TooMany); }
      var parsed := ParseFilter(vocabulary, filter);
      if parsed.Err? { return Err(InvalidFilter); }
      subs := subs[viewId := NewSub(viewId, runId, parsed.value)];
      order := order + [viewId];
      return Ok(());
    }

    method ChangeFilter(viewId: string, filter: string) returns (r: Result<(), LiveError>)
      requires Valid()
      modifies this`subs
      ensures Valid()
      ensures r.Ok? <==> viewId in old(subs) && ParseOf(vocabulary, filter).Ok?
      ensures r.Err? ==> r.error == if viewId in old(subs) then InvalidFilter else UnknownView
      ensures subs == if r.Ok? then old(subs)[viewId := Changed(old(subs)[viewId], ParseOf(vocabulary, filter).value)] else old(subs)
    {
      hide ParseOf;
      if viewId !in subs { return Err(UnknownView); }
      var parsed := ParseFilter(vocabulary, filter);
      if parsed.Err? { return Err(InvalidFilter); }
      subs := subs[viewId := Changed(subs[viewId], parsed.value)];
      return Ok(());
    }

    method Unsubscribe(viewId: string) returns (was: bool)
      requires Valid()
      modifies this`subs, this`order
      ensures Valid() && was == (viewId in old(subs)) && subs == old(subs) - {viewId} && order == Without(old(order), viewId)
    {
      if viewId !in subs {
        assert order[..|order|] == order;
        NothingWithout(order, viewId);
        return false;
      }
      var kept: seq<string> := [];
      for k := 0 to |order|
        invariant kept == Without(order[..k], viewId) && order == old(order)
      {
        assert order[..k + 1][..k] == order[..k];
        if order[k] != viewId { kept := kept + [order[k]]; }
      }
      assert order[..|order|] == order;
      DistinctWithout(order, viewId, subs);
      hide Distinct, Without, SubInv;
      subs, order := subs - {viewId}, kept;
      return true;
    }

    method MatchingOf(s: Sub, rs: seq<TraceRecord>) returns (ms: seq<TraceRecord>)
      ensures ms == Matching(vocabulary, s, rs)
    {
      hide MatchesRecord, Matching;
      ms := [];
      assert rs[0..] == rs;
      for k := 0 to |rs|
        invariant ms + Matching(vocabulary, s, rs[k..]) == Matching(vocabulary, s, rs)
      {
        MatchingStep(vocabulary, s, rs, k);
        if rs[k].runId == s.runId && MatchesRecord(vocabulary, s.ast, rs[k]) {
          assert ms + ([rs[k]] + Matching(vocabulary, s, rs[k + 1..])) == ms + [rs[k]] + Matching(vocabulary, s, rs[k + 1..]);
          ms := ms + [rs[k]];
        }
      }
      MatchingEnds(vocabulary, s, rs[|rs|..]);
      assert ms + [] == ms;
    }

    method MatchingSamplesOf(s: Sub, xs: seq<Sample>) returns (ms: seq<Sample>)
      ensures ms == MatchingSamples(vocabulary, s, xs)
    {
      hide MatchesSample;
      ms := [];
      assert xs[0..] == xs;
      for k := 0 to |xs|
        invariant ms + MatchingSamples(vocabulary, s, xs[k..]) == MatchingSamples(vocabulary, s, xs)
      {
        assert xs[k..][1..] == xs[k + 1..];
        if MatchesSample(vocabulary, s.ast, xs[k]) { ms := ms + [xs[k]]; }
      }
    }

    // What an event does to one subscription.
    method RecordsFor(id: string, rs: seq<TraceRecord>, now: real)
      requires id in subs
      modifies this`subs
      ensures subs == old(subs)[id := Next(vocabulary, limits, old(subs)[id], Offer(rs), now)]
    {
      hide Matching, Scheduled, Took;
      var s := subs[id];
      if s.ast.target != Records { return; }
      var ms := MatchingOf(s, rs);
      if ms != [] { subs := subs[id := Scheduled(Took(s, ms, []), limits.interval, now)]; }
    }

    method SamplesFor(id: string, runId: string, xs: seq<Sample>, now: real)
      requires id in subs
      modifies this`subs
      ensures subs == old(subs)[id := Next(vocabulary, limits, old(subs)[id], OfferMetrics(runId, xs), now)]
    {
      hide MatchingSamples, Scheduled, Took;
      var s := subs[id];
      if s.ast.target != Samples || s.runId != runId { return; }
      var ms := MatchingSamplesOf(s, xs);
      if ms != [] { subs := subs[id := Scheduled(Took(s, [], ms), limits.interval, now)]; }
    }

    method EmitFor(id: string, now: real)
      requires id in subs
      modifies this`subs, this`pushed
      ensures subs == old(subs)[id := AfterEmit(old(subs)[id], limits.maxPerBatch, now)]
      ensures pushed == old(pushed) + if old(subs)[id].matched == 0 then [] else [Emitted(old(subs)[id], limits.maxPerBatch)]
    {
      var s := subs[id];
      subs := subs[id := AfterEmit(s, limits.maxPerBatch, now)];
      if s.matched == 0 { return; }
      pushed := pushed + [Emitted(s, limits.maxPerBatch)];
    }

    static ghost predicate Distinct(order: seq<string>, subs: map<string, Sub>) {
      (forall id :: id in order <==> id in subs) && (forall i, j :: 0 <= i < j < |order| ==> order[i] != order[j])
    }

    // Of the subscriptions before `k` in the order, each has taken the event; the others are as they were.
    ghost predicate Halfway(before: map<string, Sub>, k: nat, e: Event, now: real)
      requires k <= |order|
      reads this
    {
      && subs.Keys == before.Keys
      && (forall id :: id in before ==>
            subs[id] == if id in order[..k] then Next(vocabulary, limits, before[id], e, now) else before[id])
    }

    // One more of them takes it.
    lemma OneMore(before: map<string, Sub>, subs0: map<string, Sub>, k: nat, e: Event, now: real)
      requires k < |order| && order[k] in before && order[k] !in order[..k]
      requires subs0.Keys == before.Keys
      requires forall id :: id in before ==>
        subs0[id] == if id in order[..k] then Next(vocabulary, limits, before[id], e, now) else before[id]
      requires subs == subs0[order[k] := Next(vocabulary, limits, subs0[order[k]], e, now)]
      ensures Halfway(before, k + 1, e, now)
    {
      hide Next;
      assert order[..k + 1] == order[..k] + [order[k]];
    }

    lemma AllTaken(before: map<string, Sub>, e: Event, now: real)
      requires Halfway(before, |order|, e, now) && Distinct(order, before)
      requires forall id :: id in before ==> SubInv(limits, before[id]) && before[id].viewId == id
      ensures Valid()
      ensures subs.Keys == before.Keys
      ensures forall id :: id in subs ==> subs[id] == Next(vocabulary, limits, before[id], e, now)
    {
      hide Next, SubInv;
      assert order[..|order|] == order;
      forall id | id in subs ensures SubInv(limits, subs[id]) && subs[id].viewId == id {
        NextKeeps(vocabulary, limits, before[id], e, now);
        SameView(vocabulary, limits, before[id], e, now);
      }
    }

    method OfferRecords(rs: seq<TraceRecord>, now: real)
      requires Valid()
      modifies this`subs
      ensures Valid() && subs.Keys == old(subs).Keys
      ensures forall id :: id in subs ==> subs[id] == Next(vocabulary, limits, old(subs)[id], Offer(rs), now)
    {
      hide Next, SubInv;
      for k := 0 to |order|
        invariant Halfway(old(subs), k, Offer(rs), now)
      {
        ghost var subs0 := subs;
        RecordsFor(order[k], rs, now);
        OneMore(old(subs), subs0, k, Offer(rs), now);
      }
      AllTaken(old(subs), Offer(rs), now);
    }

    method OfferSamples(runId: string, xs: seq<Sample>, now: real)
      requires Valid()
      modifies this`subs
      ensures Valid() && subs.Keys == old(subs).Keys
      ensures forall id :: id in subs ==> subs[id] == Next(vocabulary, limits, old(subs)[id], OfferMetrics(runId, xs), now)
    {
      hide Next, SubInv;
      for k := 0 to |order|
        invariant Halfway(old(subs), k, OfferMetrics(runId, xs), now)
      {
        ghost var subs0 := subs;
        SamplesFor(order[k], runId, xs, now);
        OneMore(old(subs), subs0, k, OfferMetrics(runId, xs), now);
      }
      AllTaken(old(subs), OfferMetrics(runId, xs), now);
    }

    // The timer of a view goes off: it is disarmed, and what waits is pushed.
    method FireTimer(viewId: string, now: real)
      requires Valid() && viewId in subs && subs[viewId].timer.Some?
      modifies this`subs, this`pushed
      ensures Valid() && subs == old(subs)[viewId := Next(vocabulary, limits, old(subs)[viewId], Fire, now)]
      ensures pushed == old(pushed) + Batches(Pushed(limits, old(subs)[viewId], Fire, now))
    {
      NextKeeps(vocabulary, limits, subs[viewId], Fire, now);
      SameView(vocabulary, limits, subs[viewId], Fire, now);
      FireIsEmit(vocabulary, limits, subs[viewId], now);
      hide Next, SubInv, AfterEmit, Emitted, Pushed;
      subs := subs[viewId := subs[viewId].(timer := None)];
      EmitFor(viewId, now);
    }

    lemma FlushStarts(now: real)
      requires Valid()
      ensures Distinct(order, subs) && Halfway(subs, 0, Flush, now) && FlushedOf(limits, subs, order, 0) == []
    {
      hide SubInv;
    }

    // The view at place k pushes what it holds.
    method FlushOne(ghost before: map<string, Sub>, k: nat, now: real)
      requires k < |order| && Distinct(order, before) && Halfway(before, k, Flush, now)
      modifies this`subs, this`pushed
      ensures Halfway(before, k + 1, Flush, now)
      ensures pushed == old(pushed) + if before[order[k]].matched == 0 then [] else [Emitted(before[order[k]], limits.maxPerBatch)]
    {
      hide AfterEmit, Emitted, Next;
      ghost var subs0 := subs;
      assert order[k] in before && order[k] !in order[..k];
      FlushIsEmit(vocabulary, limits, subs[order[k]], now);
      EmitFor(order[k], now);
      OneMore(before, subs0, k, Flush, now);
    }

    // Pushes what every subscription holds, in the order they were made.
    method FlushNow(now: real)
      requires Valid()
      modifies this`subs, this`pushed
      ensures Valid() && subs.Keys == old(subs).Keys
      ensures forall id :: id in subs ==> subs[id] == Next(vocabulary, limits, old(subs)[id], Flush, now)
      ensures pushed == old(pushed) + FlushedOf(limits, old(subs), order, |order|)
    {
      FlushStarts(now);
      hide SubInv, AfterEmit, Emitted, Next, FlushedOf, Distinct, Halfway;
      for k := 0 to |order|
        invariant Halfway(old(subs), k, Flush, now)
        invariant pushed == old(pushed) + FlushedOf(limits, old(subs), order, k)
      {
        InOrder(order, old(subs), k);
        FlushOne(old(subs), k, now);
        FlushedMore(limits, old(subs), order, k);
      }
      AllTaken(old(subs), Flush, now);
    }
  }

  // The others, in their order.
  function Without(order: seq<string>, id: string): seq<string> {
    if order == [] then []
    else Without(order[..|order| - 1], id) + if order[|order| - 1] == id then [] else [order[|order| - 1]]
  }

  lemma DistinctWithout(order: seq<string>, id: string, subs: map<string, Sub>)
    requires LiveSubscriptions.Distinct(order, subs)
    ensures LiveSubscriptions.Distinct(Without(order, id), subs - {id})
  {
    WithoutHas(order, id);
    hide Without;
  }

  lemma {:induction false} WithoutHas(order: seq<string>, id: string)
    requires forall i, j :: 0 <= i < j < |order| ==> order[i] != order[j]
    ensures forall x :: x in Without(order, id) <==> x in order && x != id
    ensures forall i, j :: 0 <= i < j < |Without(order, id)| ==> Without(order, id)[i] != Without(order, id)[j]
  {
    if order != [] {
      var before, last := order[..|order| - 1], order[|order| - 1];
      WithoutHas(before, id);
      assert order == before + [last] && last !in before;
    }
  }

  lemma {:induction false} NothingWithout(order: seq<string>, id: string)
    requires id !in order
    ensures Without(order, id) == order
  {
    if order != [] { NothingWithout(order[..|order| - 1], id); }
  }

  lemma FlushIsEmit(v: Vocabulary, l: Limits, s: Sub, now: real)
    ensures Next(v, l, s, Flush, now) == AfterEmit(s, l.maxPerBatch, now)
  {
  }

  lemma InOrder(order: seq<string>, subs: map<string, Sub>, k: nat)
    requires LiveSubscriptions.Distinct(order, subs) && k < |order|
    ensures order[k] in subs
  {
  }

  lemma FlushedMore(l: Limits, subs: map<string, Sub>, order: seq<string>, k: nat)
    requires k < |order| && order[k] in subs
    ensures FlushedOf(l, subs, order, k + 1)
         == FlushedOf(l, subs, order, k)
            + if subs[order[k]].matched == 0 then [] else [Emitted(subs[order[k]], l.maxPerBatch)]
  {
    hide Emitted;
  }

  lemma MatchingStep(v: Vocabulary, s: Sub, rs: seq<TraceRecord>, k: nat)
    requires k < |rs|
    ensures var tail := Matching(v, s, rs[k + 1..]);
      Matching(v, s, rs[k..]) == if rs[k].runId == s.runId && MatchesRecord(v, s.ast, rs[k]) then [rs[k]] + tail else tail
  {
    hide MatchesRecord;
    assert rs[k..][1..] == rs[k + 1..] && rs[k..][0] == rs[k];
    assert [] + Matching(v, s, rs[k + 1..]) == Matching(v, s, rs[k + 1..]);
  }

  lemma MatchingEnds(v: Vocabulary, s: Sub, none: seq<TraceRecord>)
    requires none == []
    ensures Matching(v, s, none) == []
  {
  }

  lemma FireIsEmit(v: Vocabulary, l: Limits, s: Sub, now: real)
    ensures Next(v, l, s, Fire, now) == AfterEmit(s.(timer := None), l.maxPerBatch, now)
    ensures Emitted(s.(timer := None), l.maxPerBatch) == Emitted(s, l.maxPerBatch)
    ensures Batches(Pushed(l, s, Fire, now)) == if s.matched == 0 then [] else [Emitted(s, l.maxPerBatch)]
  {
    hide Pick;
  }

  function Batches(ps: seq<(real, Batch)>): seq<Batch> { if ps == [] then [] else [ps[0].1] + Batches(ps[1..]) }

  // What the first k views of the order hold, as batches.
  function FlushedOf(l: Limits, subs: map<string, Sub>, order: seq<string>, k: nat): seq<Batch>
    requires k <= |order|
  {
    if k == 0 then []
    else
      FlushedOf(l, subs, order, k - 1)
      + if order[k - 1] !in subs || subs[order[k - 1]].matched == 0 then [] else [Emitted(subs[order[k - 1]], l.maxPerBatch)]
  }

  lemma SameView(v: Vocabulary, l: Limits, s: Sub, e: Event, now: real)
    ensures Next(v, l, s, e, now).viewId == s.viewId
  {
  }
}
