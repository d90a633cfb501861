// The replay of a stored run (apps/lab/src/sim/replay-run-source.ts): its records up to the cursor and a window of poses around it,
// read from storage as the cursor moves.
module Replay {
  import opened Wrappers
  import opened Trace
  import opened Paging
  import opened StoredLog

  const TIME_EPS := 0.000001
  const POSE_BEHIND := 120.0
  const POSE_AHEAD := 30.0
  const POSE_REFILL := 8.0
  const MAX_RECORDS := 50000

  // A pose as it is kept: its time and what the body reported.
  datatype Sample = Sample(t: real, body: Value)

  // ---- the records ---------------------------------------------------------------------------------------------------------------------

  // Records that are not of a body alone; `body` is the pattern that leaves those out.
  function NotBody(body: string -> bool): TraceRecord -> bool { (r: TraceRecord) => !body(r.source) }

  function Told(body: string -> bool, log: seq<TraceRecord>): seq<TraceRecord> { Filter(NotBody(body), log) }

  predicate AtMost(r: TraceRecord, t: real) { r.simTime <= t + TIME_EPS }

  // How many stand at or before the cursor.
  function Reached(rs: seq<TraceRecord>, t: real): (n: nat)
    ensures n <= |rs|
    ensures forall k :: 0 <= k < n ==> AtMost(rs[k], t)
    ensures n < |rs| ==> !AtMost(rs[n], t)
  {
    if rs == [] || !AtMost(rs[0], t) then 0 else 1 + Reached(rs[1..], t)
  }

  lemma ReachedMeans(rs: seq<TraceRecord>, t: real, k: nat)
    requires Ordered(rs) && k < |rs|
    ensures k < Reached(rs, t) <==> AtMost(rs[k], t)
  {
    var n := Reached(rs, t);
    if n <= k { assert rs[n].simTime <= rs[k].simTime; }
  }

  // What the store selects up to the cursor.
  function Upto(body: string -> bool, log: seq<TraceRecord>, t: real): seq<TraceRecord> {
    Told(body, log)[..Reached(Told(body, log), t)]
  }

  // It is what a query with that end of its window selects.
  lemma UptoIsSelected(body: string -> bool, log: seq<TraceRecord>, t: real)
    requires Ordered(log)
    ensures forall r :: r in Upto(body, log, t) <==> r in log && !body(r.source) && AtMost(r, t)
  {
    var told := Told(body, log);
    ToldOrdered(body, log);
    FilterMembers(NotBody(body), log);
    hide Filter;
    forall r | r in told && AtMost(r, t) ensures r in told[..Reached(told, t)] {
      var k :| 0 <= k < |told| && told[k] == r;
      ReachedMeans(told, t, k);
    }
  }

  lemma {:induction false} FilterOrdered(p: TraceRecord -> bool, log: seq<TraceRecord>)
    requires Ordered(log)
    ensures Ordered(Filter(p, log))
  {
    if log != [] {
      FilterOrdered(p, log[1..]);
      FilterMembers(p, log[1..]);
      assert forall r :: r in log[1..] ==> log[0].seqNo < r.seqNo && log[0].simTime <= r.simTime;
      var rest := Filter(p, log[1..]);
      assert Filter(p, log) == if p(log[0]) then [log[0]] + rest else rest;
      hide Filter;
      assert forall r :: r in rest ==> r in log[1..];
      OrderedCons(log[0], rest);
    }
  }

  lemma OrderedCons(r: TraceRecord, rest: seq<TraceRecord>)
    requires Ordered(rest) && forall x :: x in rest ==> r.seqNo < x.seqNo && r.simTime <= x.simTime
    ensures Ordered([r] + rest)
  {
  }

  lemma ToldOrdered(body: string -> bool, log: seq<TraceRecord>)
    requires Ordered(log)
    ensures Ordered(Told(body, log))
  {
    FilterOrdered(NotBody(body), log);
  }

  // More of the log leaves what was told at its place.
  lemma ToldGrows(body: string -> bool, log: seq<TraceRecord>, more: seq<TraceRecord>)
    requires log <= more
    ensures Told(body, log) <= Told(body, more)
  {
    FilterConcat(NotBody(body), log, more[|log|..]);
    assert more == log + more[|log|..];
  }

  // ---- the poses -----------------------------------------------------------------------------------------------------------------------

  predicate IsPose(body: string -> bool, r: TraceRecord) {
    r.kind == "observation" && body(r.source) && r.payload.Obj? && "op" in r.payload.fields && r.payload.fields["op"] == Str("pose")
  }

  function SampleOf(r: TraceRecord): Sample { Sample(r.simTime, r.payload) }

  // The stored samples of an agent.
  function SamplesOf(body: string -> bool, log: seq<TraceRecord>, agentId: string): seq<Sample> {
    if log == [] then []
    else (if IsPose(body, log[0]) && log[0].agentId == Some(agentId) then [SampleOf(log[0])] else []) + SamplesOf(body, log[1..], agentId)
  }

  function PoseIn(body: string -> bool, from: real, to: real): TraceRecord -> bool {
    (r: TraceRecord) => IsPose(body, r) && from <= r.simTime <= to
  }

  function Within(from: real, to: real): Sample -> bool { (s: Sample) => from <= s.t <= to }

  function Win(xs: seq<Sample>, from: real, to: real): seq<Sample> { Filter(Within(from, to), xs) }

  ghost predicate Rising(xs: seq<Sample>) { forall i, j :: 0 <= i < j < |xs| ==> xs[i].t < xs[j].t }

  lemma {:induction false} SamplesConcat(body: string -> bool, a: seq<TraceRecord>, b: seq<TraceRecord>, agentId: string)
    ensures SamplesOf(body, a + b, agentId) == SamplesOf(body, a, agentId) + SamplesOf(body, b, agentId)
  {
    hide IsPose;
    if a == [] {
      assert a + b == b;
    } else {
      assert (a + b)[1..] == a[1..] + b;
      SamplesConcat(body, a[1..], b, agentId);
    }
  }

  // The samples of a window are the window of the samples.
  lemma {:induction false} WindowOfSamples(body: string -> bool, log: seq<TraceRecord>, agentId: string, from: real, to: real)
    ensures SamplesOf(body, Filter(PoseIn(body, from, to), log), agentId) == Win(SamplesOf(body, log, agentId), from, to)
  {
    if log != [] {
      WindowOfSamples(body, log[1..], agentId, from, to);
      var r := log[0];
      var head := if PoseIn(body, from, to)(r) then [r] else [];
      var s := if IsPose(body, r) && r.agentId == Some(agentId) then [SampleOf(r)] else [];
      SamplesConcat(body, head, Filter(PoseIn(body, from, to), log[1..]), agentId);
      FilterConcat(Within(from, to), s, SamplesOf(body, log[1..], agentId));
      assert Win(s, from, to) == if PoseIn(body, from, to)(r) then s else [];
      assert SamplesOf(body, head, agentId) == if PoseIn(body, from, to)(r) then s else [] by {
        assert head != [] ==> head[1..] == [];
      }
    }
  }

  lemma {:induction false} SamplesTimes(body: string -> bool, log: seq<TraceRecord>, agentId: string, after: real)
    requires forall r :: r in log && IsPose(body, r) ==> r.simTime > after
    ensures forall s :: s in SamplesOf(body, log, agentId) ==> s.t > after
  {
    hide IsPose;
    if log != [] { SamplesTimes(body, log[1..], agentId, after); }
  }

  // ---- windows of rising samples -----------------------------------------------------------------------------------------------------------

  lemma {:induction false} FilterRising(p: Sample -> bool, xs: seq<Sample>)
    requires Rising(xs)
    ensures Rising(Filter(p, xs))
  {
    if xs != [] {
      FilterRising(p, xs[1..]);
      FilterMembers(p, xs[1..]);
      assert forall x :: x in xs[1..] ==> xs[0].t < x.t;
    }
  }

  lemma SomeMember(ys: seq<Sample>)
    ensures ys != [] ==> exists y :: y in ys
  {
    if ys != [] { assert ys[0] in ys; }
  }

  // Samples that rise and have the same elements are the same.
  lemma {:induction false} RisingSame(xs: seq<Sample>, ys: seq<Sample>)
    requires Rising(xs) && Rising(ys) && forall x :: x in xs <==> x in ys
    ensures xs == ys
  {
    if xs == [] {
      SomeMember(ys);
    } else {
      assert xs[0] in ys;
      assert ys[0] in xs;
      assert xs[0] == ys[0];
      forall x ensures x in xs[1..] <==> x in ys[1..] {
        if x in xs[1..] { assert x in xs && x.t > xs[0].t; assert x in ys; }
        if x in ys[1..] { assert x in ys && x.t > ys[0].t; assert x in xs; }
      }
      RisingSame(xs[1..], ys[1..]);
    }
  }

  ghost predicate Agree(xs: seq<Sample>, stored: seq<Sample>, from: real, to: real) {
    forall s: Sample :: from <= s.t <= to ==> (s in xs <==> s in stored)
  }

  // What is stored later than the window leaves it as it is.
  lemma AgreeStays(body: string -> bool, log: seq<TraceRecord>, more: seq<TraceRecord>, agentId: string, xs: seq<Sample>,
                   from: real, to: real)
    requires Grown(body, log, more, to)
    requires Agree(xs, SamplesOf(body, log, agentId), from, to)
    ensures Agree(xs, SamplesOf(body, more, agentId), from, to)
  {
    var tail := more[|log|..];
    assert more == log + tail;
    SamplesConcat(body, log, tail, agentId);
    SamplesTimes(body, tail, agentId, to);
    hide IsPose, SamplesOf;
  }

  // The samples kept of an agent: they rise, and within the window they are the stored ones.
  ghost predicate KeptFor(xs: seq<Sample>, stored: seq<Sample>, from: real, to: real) {
    Rising(xs) && (forall s :: s in xs ==> s.t <= to) && Win(xs, from, to) == Win(stored, from, to)
  }

  lemma KeptAgrees(xs: seq<Sample>, stored: seq<Sample>, from: real, to: real)
    requires Rising(stored) && Rising(xs) && forall s :: s in xs ==> s.t <= to
    ensures KeptFor(xs, stored, from, to) <==> Agree(xs, stored, from, to)
  {
    WinSame(xs, stored, from, to);
    hide Win, Rising;
  }

  // ---- the next stretch ----------------------------------------------------------------------------------------------------------------------

  // Adds what is later than the last sample, and drops what is too far behind the cursor.
  method Extend(have: seq<Sample>, added: seq<Sample>, t: real) returns (xs: seq<Sample>)
    requires Rising(have) && Rising(added)
    ensures Rising(xs)
    ensures forall s :: s in xs ==> s in have || s in added
    ensures forall s: Sample :: s.t >= t - POSE_BEHIND ==>
      (s in xs <==> s in have || (s in added && (have != [] ==> s.t > have[|have| - 1].t)))
  {
    xs := have;
    for k := 0 to |added|
      invariant Rising(xs)
      invariant forall s :: s in xs <==> s in have || (s in added[..k] && (have != [] ==> s.t > have[|have| - 1].t))
    {
      var s := added[k];
      forall x | x in xs ensures have == [] || s.t > have[|have| - 1].t ==> x.t < s.t {
        assert x in have ==> x.t <= have[|have| - 1].t;
        assert x in added[..k] ==> x.t < s.t;
      }
      if have == [] || s.t > have[|have| - 1].t { xs := xs + [s]; }
      assert added[..k + 1] == added[..k] + [s];
    }
    assert added[..|added|] == added;
    xs := DropBehind(xs, t);
  }

  method DropBehind(xs: seq<Sample>, t: real) returns (kept: seq<Sample>)
    requires Rising(xs)
    ensures Rising(kept)
    ensures forall s :: s in kept ==> s in xs
    ensures forall s: Sample :: s.t >= t - POSE_BEHIND ==> (s in kept <==> s in xs)
  {
    var cut := 0;
    while cut < |xs| && xs[cut].t < t - POSE_BEHIND
      invariant cut <= |xs| && forall k :: 0 <= k < cut ==> xs[k].t < t - POSE_BEHIND
    {
      cut := cut + 1;
    }
    kept := if cut < |xs| then xs[cut..] else xs;
  }

  // With the next stretch added, the window reaches to its end.
  lemma ExtendedAgrees(have: seq<Sample>, stored: seq<Sample>, added: seq<Sample>, xs: seq<Sample>, from: real, to: real, wantTo: real, t: real)
    requires Rising(have) && Rising(stored) && Agree(have, stored, from, to) && from <= t <= to <= wantTo
    requires forall s :: s in have ==> s.t <= to
    requires forall s :: s in added <==> s in stored && to <= s.t <= wantTo
    requires forall s :: s in xs ==> s in have || s in added
    requires forall s: Sample :: s.t >= t - POSE_BEHIND ==>
      (s in xs <==> s in have || (s in added && (have != [] ==> s.t > have[|have| - 1].t)))
    ensures Agree(xs, stored, Later(from, t - POSE_BEHIND), wantTo)
  {
    forall s: Sample | Later(from, t - POSE_BEHIND) <= s.t <= wantTo ensures s in xs <==> s in stored {
      if s in stored && s.t > to && have != [] { assert have[|have| - 1] in have; }
    }
  }

  function Later(a: real, b: real): real { if a >= b then a else b }

  // The cursor as it is read: not past the head, and not before the start.
  function CursorIn(start: real, head: real, cursor: real): real { Later(start, if cursor <= head then cursor else head) }

  lemma WinSame(xs: seq<Sample>, stored: seq<Sample>, from: real, to: real)
    requires Rising(xs) && Rising(stored)
    ensures Win(xs, from, to) == Win(stored, from, to) <==> Agree(xs, stored, from, to)
  {
    FilterMembers(Within(from, to), xs);
    FilterMembers(Within(from, to), stored);
    FilterRising(Within(from, to), xs);
    FilterRising(Within(from, to), stored);
    if Agree(xs, stored, from, to) { RisingSame(Win(xs, from, to), Win(stored, from, to)); }
    if Win(xs, from, to) == Win(stored, from, to) {
      forall s: Sample | from <= s.t <= to ensures s in xs <==> s in stored {
        assert s in Win(xs, from, to) <==> s in xs;
        assert s in Win(stored, from, to) <==> s in stored;
      }
    }
  }

  // ---- the source ------------------------------------------------------------------------------------------------------------------------------

  function LastSeq(rs: seq<TraceRecord>): int { if rs == [] then -1 else rs[|rs| - 1].seqNo }

  // The list is the end of what the cursor has reached, and empty only when that is.
  ghost predicate EndOf(list: seq<TraceRecord>, all: seq<TraceRecord>) {
    && |list| <= |all| && list == all[|all| - |list|..]
    && (list == [] ==> all == [])
  }

  // How many of the list a cursor that went back keeps.
  method CutBack(list: seq<TraceRecord>, t: real) returns (keep: nat)
    requires Ordered(list)
    ensures keep == Reached(list, t)
  {
    keep := |list|;
    while keep > 0 && list[keep - 1].simTime > t + TIME_EPS
      invariant keep <= |list| && Reached(list, t) <= keep
    {
      ReachedMeans(list, t, keep - 1);
      keep := keep - 1;
    }
    if keep > 0 { ReachedMeans(list, t, keep - 1); }
  }

  // What is kept of an end of what was told, and what is told behind it.
  lemma KeptIsPart(told: seq<TraceRecord>, k: nat, u: nat, t: real)
    requires Ordered(told) && k <= u <= |told|
    ensures Ordered(told[k..u])
    ensures var keep := Reached(told[k..u], t); keep > 0 ==> k + keep <= Reached(told, t)
    ensures var keep := Reached(told[k..u], t); keep > 0 && k + keep < u ==> Reached(told, t) == k + keep
  {
    var list := told[k..u];
    var keep, n := Reached(list, t), Reached(told, t);
    if keep > 0 {
      assert AtMost(list[keep - 1], t) && list[keep - 1] == told[k + keep - 1];
      ReachedMeans(told, t, k + keep - 1);
      if k + keep < u {
        assert !AtMost(list[keep], t) && list[keep] == told[k + keep];
        ReachedMeans(told, t, k + keep);
      }
    }
  }

  // Behind the last record of a part is what follows it.
  lemma BehindPart(told: seq<TraceRecord>, k: nat, m: nat, u: nat)
    requires Ordered(told) && k <= m <= u <= |told| && (k == m ==> k == 0)
    ensures Ordered(told[..u])
    ensures Behind(IntLess(), SeqKey(), told[..u], Some(LastSeq(told[k..m]))) == told[m..u]
    ensures BehindIsTail(IntLess(), SeqKey(), told[..u], Some(LastSeq(told[k..m])))
  {
    var all := told[..u];
    OrderedAscends(all);
    if k == m {
      FilterAll(IsBehind(IntLess(), SeqKey(), Some(-1)), all);
      assert told[m..u] == all && all[0..] == all;
    } else {
      assert LastSeq(told[k..m]) == SeqKey()(all[m - 1]);
      BehindElement(IntLess(), SeqKey(), all, m - 1);
      assert all[m..] == told[m..u];
    }
  }

  // The last records, as many as the list may hold.
  function NewestOf(list: seq<TraceRecord>): seq<TraceRecord> {
    if |list| > MAX_RECORDS then list[|list| - MAX_RECORDS..] else list
  }

  lemma CutIsEnd(told: seq<TraceRecord>, k: nat, u: nat)
    requires k <= u <= |told| && (k == u ==> k == 0)
    ensures var list := NewestOf(told[k..u]);
      && EndOf(list, told[..u]) && |list| <= MAX_RECORDS && LastSeq(list) == LastSeq(told[k..u])
      && (list == told[..u] <==> k == 0 && u <= MAX_RECORDS)
  {
    var list := NewestOf(told[k..u]);
    var m := if u - k > MAX_RECORDS then u - MAX_RECORDS else k;
    assert list == told[m..u] && |list| == u - m;
    assert told[..u][m..] == told[m..u];
    hide NewestOf;
    if m == 0 { assert told[0..u] == told[..u]; }
  }

  function NoSamples(agents: set<string>): (samples: map<string, seq<Sample>>)
    ensures samples.Keys == agents && forall id :: id in agents ==> samples[id] == []
  {
    map id | id in agents :: []
  }

  lemma NothingYet(body: string -> bool, t: real)
    ensures Ordered([]) && LastSeq([]) == -1 && EndOf([], Upto(body, [], t))
  {
  }

  // ---- the window of poses, for every agent ------------------------------------------------------------------------------------------------

  // Each agent's stored samples rise: it has one pose a time.
  ghost predicate Steady(body: string -> bool, agents: set<string>, log: seq<TraceRecord>) {
    forall id :: id in agents ==> Rising(SamplesOf(body, log, id))
  }

  // The log grew, and every pose it grew by is later than `end`.
  ghost predicate Grown(body: string -> bool, log: seq<TraceRecord>, more: seq<TraceRecord>, end: real) {
    log <= more && forall r :: r in more[|log|..] && IsPose(body, r) ==> r.simTime > end
  }

  lemma GrownBefore(body: string -> bool, log: seq<TraceRecord>, more: seq<TraceRecord>, end: real, earlier: real)
    requires Grown(body, log, more, end) && earlier <= end
    ensures Grown(body, log, more, earlier)
  {
    hide IsPose;
  }

  // Within the window each agent's samples are the stored ones.
  ghost predicate Loaded(samples: map<string, seq<Sample>>, body: string -> bool, log: seq<TraceRecord>, from: real, to: real) {
    forall id :: id in samples ==> KeptFor(samples[id], SamplesOf(body, log, id), from, to)
  }

  lemma PosesGrow(samples: map<string, seq<Sample>>, body: string -> bool, log: seq<TraceRecord>, more: seq<TraceRecord>,
                  window: Option<(real, real)>)
    requires Steady(body, samples.Keys, more)
    requires window.Some? ==>
      Grown(body, log, more, window.value.1) && Loaded(samples, body, log, window.value.0, window.value.1)
    ensures window.Some? ==> Loaded(samples, body, more, window.value.0, window.value.1)
  {
    if window.Some? {
      var from, to := window.value.0, window.value.1;
      forall id | id in samples ensures KeptFor(samples[id], SamplesOf(body, more, id), from, to) {
        SteadyBefore(body, log, more, id);
        KeptAgrees(samples[id], SamplesOf(body, log, id), from, to);
        AgreeStays(body, log, more, id, samples[id], from, to);
        KeptAgrees(samples[id], SamplesOf(body, more, id), from, to);
      }
    }
  }

  lemma SteadyBefore(body: string -> bool, log: seq<TraceRecord>, more: seq<TraceRecord>, id: string)
    requires log <= more && Rising(SamplesOf(body, more, id))
    ensures Rising(SamplesOf(body, log, id))
  {
    assert more == log + more[|log|..];
    SamplesConcat(body, log, more[|log|..], id);
    hide SamplesOf;
    var a, all := SamplesOf(body, log, id), SamplesOf(body, more, id);
    assert forall i :: 0 <= i < |a| ==> a[i] == all[i];
  }

  // All poses of a window, page by page.
  method ReadPoses(body: string -> bool, log: seq<TraceRecord>, from: real, to: real) returns (page: seq<TraceRecord>)
    requires Ordered(log)
    ensures page == Filter(PoseIn(body, from, to), log)
    ensures forall r :: r in page ==> IsPose(body, r)
  {
    FilterMembers(PoseIn(body, from, to), log);
    var items := Filter(PoseIn(body, from, to), log);
    FilterOrdered(PoseIn(body, from, to), log);
    OrderedAscends(items);
    FromTheStart(IntLess(), SeqKey(), items);
    hide Ascending, Irreflexive;
    page := ReadAll(IntLess(), SeqKey(), items, None, PAGE);
  }

  // The poses by agent; those of others are left out.
  method Distribute(body: string -> bool, agents: set<string>, page: seq<TraceRecord>) returns (loaded: map<string, seq<Sample>>)
    requires forall r :: r in page ==> IsPose(body, r)
    ensures loaded.Keys == agents && forall id :: id in agents ==> loaded[id] == SamplesOf(body, page, id)
  {
    hide IsPose, SamplesOf;
    loaded := NoSamples(agents);
    NoPosesYet(body);
    assert page[..0] == [];
    for k := 0 to |page|
      invariant loaded.Keys == agents && forall id :: id in agents ==> loaded[id] == SamplesOf(body, page[..k], id)
    {
      var r := page[k];
      OnePoseMore(body, page, k);
      if r.agentId.Some? && r.agentId.value in agents {
        loaded := loaded[r.agentId.value := loaded[r.agentId.value] + [SampleOf(r)]];
      }
    }
    assert page[..|page|] == page;
  }

  lemma NoPosesYet(body: string -> bool)
    ensures forall id :: SamplesOf(body, [], id) == []
  {
  }

  lemma OnePoseMore(body: string -> bool, page: seq<TraceRecord>, k: nat)
    requires k < |page| && IsPose(body, page[k])
    ensures forall id :: id != page[k].agentId.GetOr("") ==> SamplesOf(body, page[..k + 1], id) == SamplesOf(body, page[..k], id)
    ensures page[k].agentId.Some? ==> var id := page[k].agentId.value;
      SamplesOf(body, page[..k + 1], id) == SamplesOf(body, page[..k], id) + [SampleOf(page[k])]
    ensures page[k].agentId.None? ==> SamplesOf(body, page[..k + 1], "") == SamplesOf(body, page[..k], "")
  {
    var r, before := page[k], page[..k];
    assert page[..k + 1] == before + [r];
    hide IsPose;
    forall id ensures SamplesOf(body, page[..k + 1], id) == SamplesOf(body, before, id) + if r.agentId == Some(id) then [SampleOf(r)] else [] {
      SamplesConcat(body, before, [r], id);
      OneSample(body, r, id);
    }
    hide SamplesOf;
    forall id ensures SamplesOf(body, before, id) + [] == SamplesOf(body, before, id) {}
  }

  lemma OneSample(body: string -> bool, r: TraceRecord, id: string)
    requires IsPose(body, r)
    ensures SamplesOf(body, [r], id) == if r.agentId == Some(id) then [SampleOf(r)] else []
  {
    hide IsPose;
    assert [r][1..] == [];
  }

  // What a freshly read window holds.
  lemma WindowLoaded(body: string -> bool, agents: set<string>, log: seq<TraceRecord>, loaded: map<string, seq<Sample>>,
                     from: real, to: real, page: seq<TraceRecord>)
    requires Steady(body, agents, log) && page == Filter(PoseIn(body, from, to), log) && loaded.Keys == agents
    requires forall id :: id in agents ==> loaded[id] == SamplesOf(body, page, id)
    ensures Loaded(loaded, body, log, from, to)
  {
    hide KeptFor, SamplesOf, Filter, Rising, PoseIn;
    forall id | id in loaded ensures KeptFor(loaded[id], SamplesOf(body, log, id), from, to) {
      WindowOfSamples(body, log, id, from, to);
      WindowKept(SamplesOf(body, log, id), loaded[id], from, to);
    }
  }

  lemma WindowKept(all: seq<Sample>, xs: seq<Sample>, from: real, to: real)
    requires Rising(all) && xs == Win(all, from, to)
    ensures KeptFor(xs, all, from, to)
  {
    FilterMembers(Within(from, to), all);
    FilterRising(Within(from, to), all);
    hide Filter, Rising;
    FilterAll(Within(from, to), xs);
  }

  lemma RisingParts(body: string -> bool, agents: set<string>, log: seq<TraceRecord>, samples: map<string, seq<Sample>>,
                    loaded: map<string, seq<Sample>>, from: real, to: real, wantTo: real, page: seq<TraceRecord>)
    requires Steady(body, agents, log) && page == Filter(PoseIn(body, to, wantTo), log)
    requires samples.Keys == agents && Loaded(samples, body, log, from, to)
    requires loaded.Keys == agents && forall id :: id in agents ==> loaded[id] == SamplesOf(body, page, id)
    ensures forall id :: id in agents ==> Rising(samples[id]) && Rising(loaded[id])
  {
    forall id | id in agents ensures Rising(loaded[id]) {
      WindowOfSamples(body, log, id, to, wantTo);
      FilterRising(Within(to, wantTo), SamplesOf(body, log, id));
      hide SamplesOf, Filter;
    }
    hide SamplesOf, Filter, Rising;
    assert forall id :: id in agents ==> KeptFor(samples[id], SamplesOf(body, log, id), from, to);
  }

  method ExtendAll(agents: set<string>, samples: map<string, seq<Sample>>, loaded: map<string, seq<Sample>>, t: real)
    returns (next: map<string, seq<Sample>>)
    requires samples.Keys == agents == loaded.Keys
    requires forall id :: id in agents ==> Rising(samples[id]) && Rising(loaded[id])
    ensures next.Keys == agents
    ensures forall id :: id in agents ==> IsExtended(samples[id], loaded[id], next[id], t)
  {
    hide Rising;
    next := map[];
    var todo := agents;
    while todo != {}
      invariant todo <= agents && next.Keys == agents - todo
      invariant forall id :: id in next ==> IsExtended(samples[id], loaded[id], next[id], t)
      decreases |todo|
    {
      var id :| id in todo;
      var xs := Extend(samples[id], loaded[id], t);
      next := next[id := xs];
      todo := todo - {id};
    }
  }

  ghost predicate IsExtended(have: seq<Sample>, added: seq<Sample>, xs: seq<Sample>, t: real) {
    && Rising(xs)
    && (forall s :: s in xs ==> s in have || s in added)
    && (forall s: Sample :: s.t >= t - POSE_BEHIND ==>
          (s in xs <==> s in have || (s in added && (have != [] ==> s.t > have[|have| - 1].t))))
  }

  // What a window holds with its next stretch.
  lemma StretchLoaded(body: string -> bool, agents: set<string>, log: seq<TraceRecord>, samples: map<string, seq<Sample>>,
                      loaded: map<string, seq<Sample>>, next: map<string, seq<Sample>>, from: real, to: real, wantTo: real, t: real,
                      page: seq<TraceRecord>)
    requires Steady(body, agents, log) && page == Filter(PoseIn(body, to, wantTo), log)
    requires samples.Keys == agents == loaded.Keys == next.Keys && from <= t <= to <= wantTo
    requires forall id :: id in agents ==> loaded[id] == SamplesOf(body, page, id)
    requires forall id :: id in agents ==> IsExtended(samples[id], loaded[id], next[id], t)
    requires Loaded(samples, body, log, from, to)
    ensures Loaded(next, body, log, Later(from, t - POSE_BEHIND), wantTo)
  {
    hide Rising, SamplesOf, Filter, KeptFor, IsExtended;
    forall id | id in next ensures KeptFor(next[id], SamplesOf(body, log, id), Later(from, t - POSE_BEHIND), wantTo) {
      StretchFor(body, log, id, samples[id], loaded[id], next[id], from, to, wantTo, t, page);
    }
  }

  lemma StretchFor(body: string -> bool, log: seq<TraceRecord>, id: string, have: seq<Sample>, added: seq<Sample>, xs: seq<Sample>,
                   from: real, to: real, wantTo: real, t: real, page: seq<TraceRecord>)
    requires Rising(SamplesOf(body, log, id)) && page == Filter(PoseIn(body, to, wantTo), log) && from <= t <= to <= wantTo
    requires added == SamplesOf(body, page, id) && IsExtended(have, added, xs, t) && KeptFor(have, SamplesOf(body, log, id), from, to)
    ensures KeptFor(xs, SamplesOf(body, log, id), Later(from, t - POSE_BEHIND), wantTo)
  {
    hide SamplesOf, Filter, Rising;
    var all := SamplesOf(body, log, id);
    WindowOfSamples(body, log, id, to, wantTo);
    FilterMembers(Within(to, wantTo), all);
    KeptAgrees(have, all, from, to);
    ExtendedAgrees(have, all, added, xs, from, to, wantTo, t);
    KeptAgrees(xs, all, Later(from, t - POSE_BEHIND), wantTo);
  }

  lemma Begun(s: ReplayRunSource)
    requires s.list == [] && s.stored == [] && s.throughSeq == -1 && s.loadedTo == 0.0 && s.window == None && s.start >= 0.0
    requires s.samples.Keys == s.agents
    ensures s.Valid()
  {
    NothingYet(s.body, 0.0);
    hide Ordered, EndOf, LastSeq, Upto, Loaded;
  }

  class ReplayRunSource {
    const body: string -> bool
    const agents: set<string>
    // Where the recording starts: later than 0 for a window that was simulated again.
    const start: real
    var list: seq<TraceRecord>
    var throughSeq: int
    var loadedTo: real
    var headS: real
    // The poses kept of each agent, and the window they are loaded for.
    var samples: map<string, seq<Sample>>
    var window: Option<(real, real)>
    // The log as it was read last.
    ghost var stored: seq<TraceRecord>

    ghost predicate RecordsValid()
      reads this`list, this`throughSeq, this`loadedTo, this`stored
    {
      && Ordered(stored)
      && throughSeq == LastSeq(list)
      && EndOf(list, Upto(body, stored, loadedTo))
    }

    ghost predicate PosesValid()
      reads this`samples, this`window, this`headS, this`stored
    {
      && samples.Keys == agents
      && start >= 0.0
      && (window.Some? ==> window.value.1 <= headS && Loaded(samples, body, stored, window.value.0, window.value.1))
    }

    ghost predicate Valid()
      reads this
    {
      RecordsValid() && PosesValid()
    }

    constructor (body: string -> bool, agents: set<string>, start: real, headS: real)
      requires start >= 0.0
      ensures Valid() && list == [] && stored == [] && window == None
      ensures this.body == body && this.agents == agents && this.start == start && this.headS == headS
    {
      hide *;
      this.body, this.agents, this.start, this.headS, list, throughSeq, loadedTo, stored := body, agents, start, headS, [], -1, 0.0, [];
      samples, window := NoSamples(agents), None;
      new;
      Begun(this);
    }

    // Brings what is shown up to the cursor, from a log that may have grown behind the poses loaded. Then the list is the end of the
    // stored records told up to the cursor, the cursor is in the window of poses unless the window starts behind the head, and in the
    // window each agent's samples are the stored ones.
    method Refresh(log: seq<TraceRecord>, head: real, cursor: real)
      requires Valid() && Ordered(log) && Steady(body, agents, log) && stored <= log
      requires window.Some? ==> Grown(body, stored, log, window.value.1)
      modifies this
      ensures Valid() && stored == log && headS == Later(old(headS), head) && loadedTo == CursorIn(start, headS, cursor)
      ensures EndOf(list, Upto(body, log, loadedTo)) && |list| <= MAX_RECORDS
      ensures list == Upto(body, log, loadedTo) <==>
        && |Upto(body, log, loadedTo)| <= MAX_RECORDS
        && (old(list) == Upto(body, old(stored), old(loadedTo)) || Reached(old(list), loadedTo) == 0)
      ensures window.Some? && window.value.0 <= loadedTo && (loadedTo <= window.value.1 <==> loadedTo <= headS)
      ensures Loaded(samples, body, log, window.value.0, window.value.1)
    {
      hide Upto, EndOf, Ordered, Steady, Loaded, Reached, Grown;
      PosesGrow(samples, body, stored, log, window);
      headS := Later(headS, head);
      var t := CursorIn(start, headS, cursor);
      LoadTo(log, t);
      LoadPosesAround(log, t);
    }

    // Reads the poses the cursor needs: a new window after a jump, the next stretch near its end, nothing well inside it.
    method LoadPosesAround(log: seq<TraceRecord>, t: real)
      requires PosesValid() && stored == log && Ordered(log) && Steady(body, agents, log) && 0.0 <= t
      modifies this`samples, this`window
      ensures PosesValid() && window.Some? && window.value.0 <= t && (t <= window.value.1 <==> t <= headS)
    {
      hide Ordered, Steady, Loaded, Rising, SamplesOf, Filter, PoseIn, IsExtended, IsPose;
      var wantFrom := Later(0.0, t - POSE_BEHIND);
      var wantTo := if t + POSE_AHEAD <= headS then t + POSE_AHEAD else headS;
      var inside := window.Some? && window.value.0 <= t <= window.value.1;
      if inside && (window.value.1 - t >= POSE_REFILL || wantTo <= window.value.1) { return; }
      var from := if inside then window.value.1 else wantFrom;
      var page := ReadPoses(body, log, from, wantTo);
      var loaded := Distribute(body, agents, page);
      if inside {
        var cut := Later(window.value.0, t - POSE_BEHIND);
        RisingParts(body, agents, log, samples, loaded, window.value.0, from, wantTo, page);
        var next := ExtendAll(agents, samples, loaded, t);
        StretchLoaded(body, agents, log, samples, loaded, next, window.value.0, from, wantTo, t, page);
        samples, window := next, Some((cut, wantTo));
      } else {
        WindowLoaded(body, agents, log, loaded, from, wantTo, page);
        samples, window := loaded, Some((from, wantTo));
      }
    }

    // After a move of the cursor, forward or back, however often: the list is the end of the stored records that are told up to
    // the cursor, and all of them while there were never more than the list may hold.
    method LoadTo(log: seq<TraceRecord>, t: real)
      requires RecordsValid() && Ordered(log) && stored <= log
      modifies this`list, this`throughSeq, this`loadedTo, this`stored
      ensures RecordsValid() && stored == log && loadedTo == t
      ensures EndOf(list, Upto(body, log, t)) && |list| <= MAX_RECORDS
      ensures list == Upto(body, log, t) <==>
        && |Upto(body, log, t)| <= MAX_RECORDS
        && (old(list) == Upto(body, old(stored), old(loadedTo)) || Reached(old(list), t) == 0)
    {
      hide Told, Reached, Ordered, EndOf, LastSeq, NewestOf;
      ghost var k, m := PartOf(log, t);
      var told := Told(body, log);
      var u := Reached(told, t);
      CutList(t);
      ReadOn(told, u, k, m);
      loadedTo := t;
      CutIsEnd(told, k, u);
      list := NewestOf(list);
      stored := log;
    }

    // Going back, what is later than the cursor goes.
    method CutList(t: real)
      requires Ordered(list) && throughSeq == LastSeq(list)
      modifies this`list, this`throughSeq
      ensures list == (if t < loadedTo then old(list)[..Reached(old(list), t)] else old(list)) && throughSeq == LastSeq(list)
    {
      hide Ordered, Reached, LastSeq;
      if t < loadedTo {
        var keep := CutBack(list, t);
        list := list[..keep];
        throughSeq := LastSeq(list);
      }
    }

    // What follows in what is told up to the u-th is read behind the list, page by page.
    method ReadOn(told: seq<TraceRecord>, u: nat, ghost k: nat, ghost m: nat)
      requires Ordered(told) && k <= m <= u <= |told| && (k == m ==> k == 0) && list == told[k..m] && throughSeq == LastSeq(list)
      modifies this`list, this`throughSeq
      ensures list == told[k..u] && throughSeq == LastSeq(list)
    {
      hide Ascending, Irreflexive, Behind, BehindIsTail, Ordered, LastSeq, IntLess, SeqKey;
      BehindPart(told, k, m, u);
      OrderedAscends(told[..u]);
      var page := ReadAll(IntLess(), SeqKey(), told[..u], Some(throughSeq), PAGE);
      assert told[k..m] + told[m..u] == told[k..u];
      list := list + page;
      throughSeq := LastSeq(list);
    }

    // Where the list stands in what is told once the cursor went to `t`: from place k to m.
    lemma PartOf(log: seq<TraceRecord>, t: real) returns (k: nat, m: nat)
      requires RecordsValid() && Ordered(log) && stored <= log
      ensures var told, u, keep := Told(body, log), Reached(Told(body, log), t), Reached(list, t);
        && Ordered(told) && Ordered(list)
        && k <= m <= u <= |told|
        && (k == m ==> k == 0)
        && (if t < loadedTo then list[..keep] == told[k..m] else list == told[k..m])
        && (k == 0 <==> list == Upto(body, stored, loadedTo) || keep == 0)
    {
      ToldOrdered(body, log);
      ToldGrows(body, stored, log);
      hide Told, Reached, Ordered, AtMost;
      var told, before := Told(body, log), Told(body, stored);
      var u0 := Reached(before, loadedTo);
      EndIsPart(told, before, u0, list);
      assert u0 > 0 ==> AtMost(before[u0 - 1], loadedTo);
      hide Upto, EndOf;
      WholeIs(body, stored, loadedTo, list, u0);
      k, m := PlaceOf(told, u0 - |list|, u0, loadedTo, t);
    }
  }

  // An end of what was told before is a part of what is told.
  lemma EndIsPart(told: seq<TraceRecord>, before: seq<TraceRecord>, u: nat, list: seq<TraceRecord>)
    requires before <= told && u <= |before| && EndOf(list, before[..u])
    ensures |list| <= u && list == told[u - |list|..u] && (|list| == 0 ==> u == 0) && (u > 0 ==> before[u - 1] == told[u - 1])
  {
    assert before[..u] == told[..u];
  }

  lemma WholeIs(body: string -> bool, stored: seq<TraceRecord>, t: real, list: seq<TraceRecord>, u: nat)
    requires u == Reached(Told(body, stored), t) && EndOf(list, Told(body, stored)[..u])
    ensures |list| <= u && (|list| == u <==> list == Upto(body, stored, t))
  {
    hide Told, Reached;
  }

  // A part that was told up to one cursor, after it went to another.
  lemma PlaceOf(told: seq<TraceRecord>, k0: nat, u0: nat, before: real, t: real) returns (k: nat, m: nat)
    requires Ordered(told) && k0 <= u0 <= |told| && (k0 == u0 ==> u0 == 0) && (u0 > 0 ==> AtMost(told[u0 - 1], before))
    ensures var list := told[k0..u0]; var keep := Reached(list, t);
      && Ordered(list) && k <= m <= Reached(told, t) && (k == m ==> k == 0)
      && (if t < before then list[..keep] == told[k..m] else list == told[k..m])
      && (k == 0 <==> k0 == 0 || keep == 0)
  {
    hide Reached, Ordered, AtMost;
    k, m := k0, u0;
    var list := told[k0..u0];
    KeptIsPart(told, k0, u0, t);
    var keep := Reached(list, t);
    if t < before {
      if keep == 0 {
        k, m := 0, 0;
      } else {
        m := k0 + keep;
        assert list[..keep] == told[k..m];
      }
    } else if u0 > 0 {
      LaterReaches(told, before, t, u0);
      ReachedMeans(told, t, k0);
      ReachedMeans(list, t, 0);
      assert list[0] == told[k0];
    }
  }

  // What was reached is reached by a later cursor.
  lemma LaterReaches(told: seq<TraceRecord>, before: real, t: real, m: nat)
    requires Ordered(told) && before <= t && 0 < m <= |told| && AtMost(told[m - 1], before)
    ensures m <= Reached(told, t)
  {
    ReachedMeans(told, t, m - 1);
  }

  // ---- what is shown of the poses ----------------------------------------------------------------------------------------------------------

  predicate IsLast(xs: seq<Sample>, t: real, k: int) {
    && -1 <= k < |xs|
    && (forall i :: 0 <= i <= k ==> xs[i].t <= t + TIME_EPS)
    && (forall i :: k < i < |xs| ==> xs[i].t > t + TIME_EPS)
  }

  // The last sample at or before the cursor, by binary search.
  method LastAtOrBefore(xs: seq<Sample>, t: real) returns (found: int)
    requires Rising(xs)
    ensures IsLast(xs, t, found)
  {
    var lo, hi := 0, |xs| - 1;
    found := -1;
    while lo <= hi
      invariant 0 <= lo <= hi + 1 <= |xs| && found == lo - 1
      invariant forall i :: 0 <= i < lo ==> xs[i].t <= t + TIME_EPS
      invariant forall i :: hi < i < |xs| ==> xs[i].t > t + TIME_EPS
    {
      var mid := (lo + hi) / 2;
      if xs[mid].t <= t + TIME_EPS {
        found := mid;
        lo := mid + 1;
      } else {
        hi := mid - 1;
      }
    }
  }

  // The sample shown at the cursor is the last stored one, when that is in the window.
  lemma ShownIsStored(xs: seq<Sample>, stored: seq<Sample>, from: real, to: real, t: real, k: int, n: int)
    requires Rising(stored) && KeptFor(xs, stored, from, to) && t + TIME_EPS <= to
    requires IsLast(xs, t, k) && IsLast(stored, t, n) && n >= 0 && stored[n].t >= from
    ensures k >= 0 && xs[k] == stored[n]
  {
    KeptAgrees(xs, stored, from, to);
    hide KeptFor;
    assert stored[n] in xs;
    var i :| 0 <= i < |xs| && xs[i] == stored[n];
    assert i <= k && xs[k].t >= xs[i].t;
    assert xs[k] in stored;
    var j :| 0 <= j < |stored| && stored[j] == xs[k];
    assert j <= n;
  }

  // ---- the end of the recording --------------------------------------------------------------------------------------------------------------

  lemma {:induction false} SeqAtLeast(log: seq<TraceRecord>, k: nat)
    requires Ordered(log) && k < |log|
    ensures log[k].seqNo >= k
  {
    if k > 0 { SeqAtLeast(log, k - 1); }
  }

  lemma {:induction false} BehindHasLast(log: seq<TraceRecord>, after: int)
    requires Ordered(log) && log != [] && after < log[|log| - 1].seqNo
    ensures BehindIsTail(IntLess(), SeqKey(), log, Some(after))
    ensures log[|log| - 1] in Behind(IntLess(), SeqKey(), log, Some(after))
  {
    var n := FirstBehind(log, after);
    var q := IsBehind(IntLess(), SeqKey(), Some(after));
    assert log == log[..n] + log[n..];
    hide Filter, Ordered;
    FilterConcat(q, log[..n], log[n..]);
    FilterNone(q, log[..n]);
    FilterAll(q, log[n..]);
    assert log[n..][|log| - 1 - n] == log[|log| - 1];
  }

  lemma FirstBehind(log: seq<TraceRecord>, after: int) returns (n: nat)
    requires Ordered(log) && log != [] && after < log[|log| - 1].seqNo
    ensures n < |log|
    ensures forall k :: 0 <= k < n ==> log[k].seqNo <= after
    ensures forall k :: n <= k < |log| ==> log[k].seqNo > after
  {
    n := |log| - 1;
    while n > 0 && log[n - 1].seqNo > after
      invariant n < |log| && forall k :: n <= k < |log| ==> log[k].seqNo > after
    {
      n := n - 1;
    }
  }

  // The sim time of the last record, looked for from the count of records on: numbers may skip, so it is never before that.
  method HeadOf(log: seq<TraceRecord>) returns (head: real)
    requires Ordered(log) && forall r :: r in log ==> r.simTime >= 0.0
    ensures head == EndTime(log)
  {
    var after := if |log| - 2 >= -1 then |log| - 2 else -1;
    BehindCount(log, after);
    OrderedAscends(log);
    hide Behind, BehindIsTail, Ascending, Irreflexive, Ordered;
    var page := ReadAll(IntLess(), SeqKey(), log, Some(after), PAGE);
    head := LatestOf(page);
    if log != [] { LastIsLatest(log); }
  }

  method LatestOf(page: seq<TraceRecord>) returns (head: real)
    ensures head >= 0.0 && forall r :: r in page ==> r.simTime <= head
    ensures head == 0.0 || exists r :: r in page && r.simTime == head
  {
    head := 0.0;
    for k := 0 to |page|
      invariant head >= 0.0 && forall r :: r in page[..k] ==> r.simTime <= head
      invariant head == 0.0 || exists r :: r in page && r.simTime == head
    {
      assert page[..k + 1] == page[..k] + [page[k]];
      if page[k].simTime > head { head := page[k].simTime; }
    }
    assert page[..|page|] == page;
  }

  // What is behind the count of records holds the last of them.
  lemma BehindCount(log: seq<TraceRecord>, after: int)
    requires Ordered(log) && after == if |log| - 2 >= -1 then |log| - 2 else -1
    ensures BehindIsTail(IntLess(), SeqKey(), log, Some(after))
    ensures var page := Behind(IntLess(), SeqKey(), log, Some(after));
      (forall r :: r in page ==> r in log) && (log != [] ==> log[|log| - 1] in page)
  {
    FilterMembers(IsBehind(IntLess(), SeqKey(), Some(after)), log);
    if log != [] {
      SeqAtLeast(log, |log| - 1);
      BehindHasLast(log, after);
    } else {
      assert Behind(IntLess(), SeqKey(), log, Some(after)) == log[0..];
    }
  }

  // ---- a whole replay ------------------------------------------------------------------------------------------------------------------------

  // A move of the cursor, with the log as the store has it then and the head that was reported.
  datatype Move = Move(log: seq<TraceRecord>, head: real, cursor: real)

  function HeadAfter(head: real, moves: seq<Move>): real {
    if moves == [] then head else Later(HeadAfter(head, moves[..|moves| - 1]), moves[|moves| - 1].head)
  }

  // The log only grows, and by no pose at or before the head of then.
  ghost predicate Follows(body: string -> bool, agents: set<string>, head: real, moves: seq<Move>, k: nat)
    requires k < |moves|
  {
    && Ordered(moves[k].log) && Steady(body, agents, moves[k].log)
    && (k > 0 ==> Grown(body, moves[k - 1].log, moves[k].log, HeadAfter(head, moves[..k])))
  }

  // The records told up to where a move brings the cursor.
  function ToldAt(body: string -> bool, start: real, head: real, moves: seq<Move>, k: nat): seq<TraceRecord>
    requires k < |moves|
  {
    Upto(body, moves[k].log, CursorIn(start, HeadAfter(head, moves[..k + 1]), moves[k].cursor))
  }

  // Opens a replay with the end of what is recorded and takes any moves of the cursor. However it moved, the panels have the end of
  // what is told up to the cursor, all of it as long as it never was more than a list may hold, and the cursor has its poses.
  method Replayed(body: string -> bool, agents: set<string>, start: real, logged: seq<TraceRecord>, moves: seq<Move>)
    returns (source: ReplayRunSource)
    requires Ordered(logged) && (forall r :: r in logged ==> r.simTime >= 0.0) && start >= 0.0
    requires forall k :: 0 <= k < |moves| ==> Follows(body, agents, EndTime(logged), moves, k)
    ensures fresh(source) && source.Valid() && source.headS == HeadAfter(EndTime(logged), moves)
    ensures moves == [] ==> source.list == []
    ensures moves != [] ==>
      var n, head := |moves| - 1, HeadAfter(EndTime(logged), moves);
      var log, t := moves[n].log, CursorIn(start, head, moves[n].cursor);
      && source.stored == log && source.samples.Keys == agents
      && EndOf(source.list, Upto(body, log, t)) && |source.list| <= MAX_RECORDS
      && ((forall k :: 0 <= k < |moves| ==> |ToldAt(body, start, EndTime(logged), moves, k)| <= MAX_RECORDS)
            ==> source.list == Upto(body, log, t))
      && source.window.Some? && source.window.value.0 <= t && (t <= source.window.value.1 <==> t <= head)
      && Loaded(source.samples, body, log, source.window.value.0, source.window.value.1)
  {
    hide Ordered, Steady, Grown, EndOf, Upto, Loaded, Reached;
    var head := HeadOf(logged);
    source := new ReplayRunSource(body, agents, start, head);
    NothingTold(body, source.loadedTo);
    for n := 0 to |moves|
      invariant fresh(source) && source.Valid() && source.body == body && source.agents == agents && source.start == start
      invariant source.headS == HeadAfter(head, moves[..n])
      invariant n == 0 ==> source.window == None && source.list == source.stored == []
      invariant n > 0 ==>
        var t := CursorIn(start, HeadAfter(head, moves[..n]), moves[n - 1].cursor);
        && source.stored == moves[n - 1].log && source.loadedTo == t
        && EndOf(source.list, Upto(body, source.stored, t)) && |source.list| <= MAX_RECORDS
        && source.window.Some? && source.window.value.0 <= t && (t <= source.window.value.1 <==> t <= source.headS)
        && Loaded(source.samples, body, source.stored, source.window.value.0, source.window.value.1)
      invariant (forall k :: 0 <= k < n ==> |ToldAt(body, start, head, moves, k)| <= MAX_RECORDS) ==>
        source.list == Upto(body, source.stored, source.loadedTo)
    {
      assert Follows(body, agents, head, moves, n);
      if n > 0 {
        GrownBefore(body, moves[n - 1].log, moves[n].log, source.headS, source.window.value.1);
        GrownIsLonger(body, moves[n - 1].log, moves[n].log, source.headS);
      }
      assert moves[..n + 1][..n] == moves[..n];
      source.Refresh(moves[n].log, moves[n].head, moves[n].cursor);
      assert |ToldAt(body, start, head, moves, n)| <= MAX_RECORDS ==> |Upto(body, source.stored, source.loadedTo)| <= MAX_RECORDS;
    }
    assert moves[..|moves|] == moves;
  }

  lemma GrownIsLonger(body: string -> bool, log: seq<TraceRecord>, more: seq<TraceRecord>, end: real)
    requires Grown(body, log, more, end)
    ensures log <= more
  {
  }

  lemma NothingTold(body: string -> bool, t: real)
    ensures Upto(body, [], t) == []
  {
  }

  function EndTime(log: seq<TraceRecord>): real { if log == [] then 0.0 else log[|log| - 1].simTime }

  lemma LastIsLatest(log: seq<TraceRecord>)
    requires Ordered(log) && log != []
    ensures forall r :: r in log ==> r.simTime <= log[|log| - 1].simTime
  {
  }
}
