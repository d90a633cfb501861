// A bundle written to a database and read out of it again: what an import keeps of a run (packages/storage/src/run-bundle.ts).
module RunImports {
  import opened Wrappers
  import opened Trace
  import opened Sorting
  import opened Paging
  import opened Base64
  import opened BeliefFrames
  import opened RunFiles
  import opened StoredLog
  import opened RunRenaming
  import opened RunBlobs
  import opened RunBundles

  // ---- what the store keeps of a bundle ------------------------------------------------------------------------------------------------------------

  lemma MetricsAscend(ms: seq<Metric>)
    requires SortedBy(ByMetric, ms) && NoRepeats(ms)
    ensures Ascending(MetricLess(), MetricKey(), ms)
  {
    hide LexLe;
    forall i, j | 0 <= i < j < |ms|
      ensures SeriesLess(MetricKey()(ms[i]), MetricKey()(ms[j])) && !SeriesLess(MetricKey()(ms[j]), MetricKey()(ms[i]))
    {
      assert ByMetric(ms[i], ms[j]) && MetricKey()(ms[i]) != MetricKey()(ms[j]);
      LexFacts(ms[i].source, ms[j].source, "");
      LexFacts(ms[i].name, ms[j].name, "");
    }
  }

  // It is in the store's orders.
  lemma ImportedIsKept(b: Bundle, idOf: seq<byte> -> string, to: string, version: Option<nat>)
    requires RecordsProper(b.records, b.header.runId) && FramesProper(b.frames) && NoRepeats(Sort(ByMetric, b.metrics.GetOr([])))
    ensures Kept(Imported(b, idOf, to, version))
  {
    RecordsCarried(b.records, b.header.runId, to);
    MetricsTotal();
    SortIsSorted(ByMetric, b.metrics.GetOr([]));
    hide Sort, TotalOrder, InOrder, OfAgent, Ordered, Ascending, RecordsProper, Carried, NoRepeats, FramesRise, Renamed;
    MetricsAscend(Sort(ByMetric, b.metrics.GetOr([])));
    forall a ensures InOrder(OfAgent(Sort(ByFrame, b.frames), a)) { AgentsInOrder(Sort(ByFrame, b.frames), a); }
  }

  // The snapshots known by different IDs: each is one of these, each ID is there once, and none is left out while they differ.
  lemma {:induction false} DistinctMeans(idOf: seq<byte> -> string, xs: seq<Snapshot>)
    ensures DifferentIds(idOf, Distinct(idOf, xs)) && SameIds(idOf, xs, Distinct(idOf, xs))
    ensures DifferentIds(idOf, xs) ==> Distinct(idOf, xs) == xs
  {
    hide DifferentIds, SameIds, HasId;
    if xs == [] {
      NoSnapshots(idOf);
    } else {
      var before, last := xs[..|xs| - 1], xs[|xs| - 1];
      var out := Distinct(idOf, before);
      DistinctMeans(idOf, before);
      assert xs == before + [last];
      DifferentMore(idOf, before, last);
      DifferentMore(idOf, out, last);
      SameIdsMore(idOf, before, out, last);
    }
  }

  lemma NoSnapshots(idOf: seq<byte> -> string)
    ensures DifferentIds(idOf, []) && SameIds(idOf, [], [])
  {
  }

  lemma DifferentMore(idOf: seq<byte> -> string, xs: seq<Snapshot>, x: Snapshot)
    ensures DifferentIds(idOf, xs + [x]) <==> DifferentIds(idOf, xs) && !HasId(idOf, xs, x)
  {
    var all := xs + [x];
    assert all[|xs|] == x && forall k :: 0 <= k < |xs| ==> all[k] == xs[k];
    if HasId(idOf, xs, x) {
      var k :| 0 <= k < |xs| && idOf(xs[k].bytes) == idOf(x.bytes);
      assert idOf(all[k].bytes) == idOf(all[|xs|].bytes);
    } else {
      assert forall k :: 0 <= k < |xs| ==> idOf(xs[k].bytes) != idOf(x.bytes);
    }
  }

  lemma SameIdsMore(idOf: seq<byte> -> string, xs: seq<Snapshot>, out: seq<Snapshot>, x: Snapshot)
    requires SameIds(idOf, xs, out)
    ensures SameIds(idOf, xs + [x], out + [x])
    ensures HasId(idOf, out, x) ==> SameIds(idOf, xs + [x], out)
  {
    assert x in out + [x] && x in xs + [x];
    forall s | s in out ensures s in out + [x] {}
    forall y | y in xs ensures HasId(idOf, out + [x], y) { assert HasId(idOf, out, y); }
  }

  // One holds snapshots of the other, and something for each of its IDs.
  ghost predicate SameIds(idOf: seq<byte> -> string, xs: seq<Snapshot>, out: seq<Snapshot>) {
    && (forall s :: s in out ==> s in xs)
    && forall x :: x in xs ==> HasId(idOf, out, x)
  }

  ghost predicate DifferentIds(idOf: seq<byte> -> string, xs: seq<Snapshot>) {
    forall i, j :: 0 <= i < j < |xs| ==> idOf(xs[i].bytes) != idOf(xs[j].bytes)
  }

  // How the snapshots of a bundle are listed once they are stored.
  function SnapshotsOf(b: Bundle, idOf: seq<byte> -> string): seq<Snapshot> { Sort(Listed(idOf), Distinct(idOf, Sort(ByTick, b.snapshots))) }

  // Each is one of the bundle's, in the order of the ticks, and each of the bundle's is there by its ID.
  lemma SnapshotsCarried(b: Bundle, idOf: seq<byte> -> string)
    ensures var out := SnapshotsOf(b, idOf);
      && SortedBy(Listed(idOf), out)
      && SameIds(idOf, b.snapshots, out)
      && (DifferentIds(idOf, Sort(ByTick, b.snapshots)) ==> multiset(out) == multiset(b.snapshots))
  {
    OrdersAreTotal(idOf);
    var sorted := Sort(ByTick, b.snapshots);
    SortIsSorted(ByTick, b.snapshots);
    SortedSameElements(ByTick, b.snapshots);
    DistinctMeans(idOf, sorted);
    SortIsSorted(Listed(idOf), Distinct(idOf, sorted));
    SortedSameElements(Listed(idOf), Distinct(idOf, sorted));
    hide Sort, Distinct, TotalOrder, ByTick, Listed, DifferentIds, SortedBy;
    forall x | x in b.snapshots ensures HasId(idOf, SnapshotsOf(b, idOf), x) {
      assert HasId(idOf, Distinct(idOf, sorted), x);
    }
  }

  lemma MetricsCarried(b: Bundle)
    ensures var out := Sort(ByMetric, b.metrics.GetOr([])); SortedBy(ByMetric, out) && multiset(out) == multiset(b.metrics.GetOr([]))
  {
    MetricsTotal();
    SortIsSorted(ByMetric, b.metrics.GetOr([]));
  }

  // ---- the frames ------------------------------------------------------------------------------------------------------------------------------------

  predicate HasKeyframe(fs: seq<Frame>, a: string) { exists f :: f in fs && f.keyframe && f.agentId == a }

  function WithKeyframe(fs: seq<Frame>): Frame -> bool { (f: Frame) => HasKeyframe(fs, f.agentId) }

  // The frames of a bundle that come back: those of the agents with a keyframe, in the store's order.
  function FramesBack(fs: seq<Frame>): seq<Frame> { Filter(WithKeyframe(fs), Sort(ByFrame, fs)) }

  lemma {:induction false} FilterCounts(p: Frame -> bool, xs: seq<Frame>, x: Frame)
    ensures multiset(Filter(p, xs))[x] == if p(x) then multiset(xs)[x] else 0
  {
    hide Filter;
    if xs == [] {
      FilterNone(p, xs);
    } else {
      var first, more := xs[0], xs[1..];
      assert xs == [first] + more;
      FilterCounts(p, more, x);
      FilterCons(p, first, more);
      ConsCounts(first, more, x);
      ConsCounts(first, Filter(p, more), x);
    }
  }

  lemma FilterCons(p: Frame -> bool, first: Frame, more: seq<Frame>)
    ensures Filter(p, [first] + more) == if p(first) then [first] + Filter(p, more) else Filter(p, more)
  {
    assert ([first] + more)[1..] == more;
    assert [] + Filter(p, more) == Filter(p, more);
  }

  lemma ConsCounts(first: Frame, rest: seq<Frame>, x: Frame)
    ensures multiset([first] + rest)[x] == multiset(rest)[x] + if x == first then 1 else 0
  {
    assert multiset([first] + rest) == multiset{first} + multiset(rest);
  }

  // The frames of an agent as they are stored are those of the bundle, in the order of their numbers.
  lemma AgentFramesSame(fs: seq<Frame>, a: string)
    ensures multiset(OfAgent(Sort(ByFrame, fs), a)) == multiset(OfAgent(fs, a))
  {
    FramesTotal();
    SortIsSorted(ByFrame, fs);
    hide Sort, TotalOrder, SortedBy, ByFrame;
    forall x ensures multiset(OfAgent(Sort(ByFrame, fs), a))[x] == multiset(OfAgent(fs, a))[x] {
      FilterCounts(ByAgent(a), Sort(ByFrame, fs), x);
      FilterCounts(ByAgent(a), fs, x);
    }
    hide OfAgent;
  }

  // A bundle holds no more frames than a page: all of every agent with a keyframe are read, agent by agent, and no others.
  lemma BundleFramesRead(fs: seq<Frame>)
    requires FramesProper(fs)
    ensures AllAgentsRead(Sort(ByFrame, fs), PAGE) == FramesBack(fs)
  {
    var sorted := Sort(ByFrame, fs);
    var ks := Filter(IsKeyframe(), sorted);
    FramesTotal();
    SortIsSorted(ByFrame, fs);
    SortedSameElements(ByFrame, fs);
    FilterSorted(IsKeyframe(), sorted);
    FilterMembers(IsKeyframe(), sorted);
    hide Sort, TotalOrder, Filter, AgentsRead, SortedBy, ByFrame, FramesRise;
    assert Prefix(ks, PAGE) == ks;
    AgentsAscend(ks);
    AgentsReadAre(sorted, AgentsOf(ks), PAGE);
    forall f | f in sorted ensures InList(AgentsOf(ks))(f) == WithKeyframe(fs)(f) {
      if HasKeyframe(fs, f.agentId) {
        var k :| k in fs && k.keyframe && k.agentId == f.agentId;
        assert k in ks;
      }
    }
    FilterSame(InList(AgentsOf(ks)), WithKeyframe(fs), sorted);
  }

  function InList(agents: seq<string>): Frame -> bool { (f: Frame) => f.agentId in agents }

  lemma {:induction false} FilterSorted(p: Frame -> bool, xs: seq<Frame>)
    requires SortedBy(ByFrame, xs)
    ensures SortedBy(ByFrame, Filter(p, xs))
  {
    hide ByFrame;
    if xs != [] {
      SortedRest(xs);
      hide SortedBy;
      FilterSorted(p, xs[1..]);
      FilterMembers(p, xs[1..]);
      var rest := Filter(p, xs[1..]);
      assert Filter(p, xs) == if p(xs[0]) then [xs[0]] + rest else rest;
      hide Filter;
      SortedCons(xs[0], rest);
    }
  }

  lemma SortedRest(xs: seq<Frame>)
    requires SortedBy(ByFrame, xs) && xs != []
    ensures SortedBy(ByFrame, xs[1..]) && forall f :: f in xs[1..] ==> ByFrame(xs[0], f)
  {
    hide ByFrame;
  }

  lemma SortedCons(x: Frame, xs: seq<Frame>)
    requires SortedBy(ByFrame, xs) && forall f :: f in xs ==> ByFrame(x, f)
    ensures SortedBy(ByFrame, [x] + xs)
  {
    hide ByFrame;
  }

  ghost predicate AgentsRise(agents: seq<string>) {
    forall i, j :: 0 <= i < j < |agents| ==> agents[i] != agents[j] && LexLe(agents[i], agents[j])
  }

  lemma {:induction false} AgentsAscend(fs: seq<Frame>)
    requires SortedBy(ByFrame, fs)
    ensures AgentsRise(AgentsOf(fs))
  {
    hide LexLe;
    if fs != [] {
      var before, last := fs[..|fs| - 1], fs[|fs| - 1];
      AgentsAscend(before);
      forall a | a in AgentsOf(before) ensures LexLe(a, last.agentId) {
        var f :| f in before && f.agentId == a;
        var k :| 0 <= k < |before| && before[k] == f;
        assert ByFrame(fs[k], last);
        LexFacts(a, a, a);
      }
      hide ByFrame, SortedBy;
    }
  }

  // The frames of agents that rise, one agent after the other, are theirs in the order of all.
  lemma {:induction false} AgentsReadAre(fs: seq<Frame>, agents: seq<string>, limit: nat)
    requires SortedBy(ByFrame, fs) && AgentsRise(agents) && |fs| <= limit
    ensures AgentsRead(fs, agents, limit) == Filter(InList(agents), fs)
  {
    hide Filter, AgentRead, LexLe, ByFrame, SortedBy;
    if agents == [] {
      FilterNone(InList(agents), fs);
    } else {
      var before, a := agents[..|agents| - 1], agents[|agents| - 1];
      AgentsReadAre(fs, before, limit);
      AgentReadShort(OfAgent(fs, a), limit);
      AgentLast(fs, agents);
      FilterSplit(InList(before), ByAgent(a), InList(agents), fs);
    }
  }

  lemma AgentReadShort(fs: seq<Frame>, limit: nat)
    requires |fs| <= limit
    ensures AgentRead(fs, limit) == fs
  {
  }

  // The last of them has no frame before one of the others.
  lemma AgentLast(fs: seq<Frame>, agents: seq<string>)
    requires SortedBy(ByFrame, fs) && AgentsRise(agents) && agents != []
    ensures var before, a := agents[..|agents| - 1], agents[|agents| - 1];
      && (forall i, j :: 0 <= i <= j < |fs| && ByAgent(a)(fs[i]) ==> !InList(before)(fs[j]))
      && forall f :: InList(agents)(f) <==> InList(before)(f) || ByAgent(a)(f)
  {
    hide LexLe;
    var before, a := agents[..|agents| - 1], agents[|agents| - 1];
    assert agents == before + [a];
    forall i, j | 0 <= i <= j < |fs| && fs[i].agentId == a ensures fs[j].agentId !in before {
      assert i < j ==> ByFrame(fs[i], fs[j]);
      forall m | 0 <= m < |before| ensures before[m] != fs[j].agentId {
        assert agents[m] == before[m];
        LexFacts(agents[m], a, "");
      }
    }
  }

  lemma {:induction false} FilterSplit(p: Frame -> bool, q: Frame -> bool, both: Frame -> bool, fs: seq<Frame>)
    requires forall f :: both(f) <==> p(f) || q(f)
    requires forall i, j :: 0 <= i <= j < |fs| && q(fs[i]) ==> !p(fs[j])
    ensures Filter(both, fs) == Filter(p, fs) + Filter(q, fs)
  {
    if fs != [] {
      if q(fs[0]) {
        FilterNone(p, fs);
        FilterSame(both, q, fs);
        assert [] + Filter(q, fs) == Filter(q, fs);
      } else {
        FilterSplit(p, q, both, fs[1..]);
        hide Filter;
      }
    }
  }

  // Of an agent with a keyframe all frames come back, of another none.
  lemma AllFramesRead(fs: seq<Frame>, a: string)
    ensures OfAgent(FramesBack(fs), a) == if HasKeyframe(fs, a) then OfAgent(Sort(ByFrame, fs), a) else []
  {
    hide Sort;
    FilterTwice(WithKeyframe(fs), ByAgent(a), Sort(ByFrame, fs), HasKeyframe(fs, a));
  }

  lemma {:induction false} FilterTwice(p: Frame -> bool, q: Frame -> bool, fs: seq<Frame>, all: bool)
    requires forall f :: q(f) ==> p(f) == all
    ensures Filter(q, Filter(p, fs)) == if all then Filter(q, fs) else []
  {
    if fs != [] {
      FilterTwice(p, q, fs[1..], all);
      var rest := Filter(p, fs[1..]);
      if p(fs[0]) {
        FilterConcat(q, [fs[0]], rest);
        assert [fs[0]][1..] == [];
        assert Filter(p, fs) == [fs[0]] + rest;
      } else {
        assert Filter(p, fs) == [] + rest == rest;
      }
    }
  }

  // ---- import and export -----------------------------------------------------------------------------------------------------------------------------

  datatype ImportError = NotWritten(refused: WriteError) | NotRead(why: ReadError)

  // The blobs of its frames that are no keyframes, when they are manifests, name only blobs of the bundle; of keyframes a proper
  // bundle has them.
  ghost predicate DeltasWhole(b: Bundle, groups: seq<byte> -> Option<seq<string>>) {
    forall f :: f in b.frames && !f.keyframe ==> GroupsOf(BlobMap(b.blobs), f, groups) <= Ids(b.blobs)
  }

  lemma WholeWhen(b: Bundle, read: seq<Frame>, have: set<string>, sections: seq<byte> -> seq<string>, groups: seq<byte> -> Option<seq<string>>,
                  k: nat)
    requires BlobsThere(b, sections, groups) && DeltasWhole(b, groups) && k < |read| && read[k] in b.frames
    ensures Whole(BlobMap(b.blobs), read, have, groups, k)
  {
    BlobMapHas(b.blobs);
    hide BlobMap, Ids, Opens;
    var f := read[k];
    assert FrameThere(f, BlobMap(b.blobs), groups);
  }

  // A bundle that is imported and cannot be exported: behind a keyframe of its agent, a frame that is no keyframe names a manifest whose
  // group the bundle does not hold.
  lemma DeltaManifest(b: Bundle, kid: string, mid: string, g: string, kb: seq<byte>, mb: seq<byte>, agentId: string,
                      idOf: seq<byte> -> string, sections: seq<byte> -> seq<string>, groups: seq<byte> -> Option<seq<string>>)
    requires kid != mid && g != kid && g != mid && groups(kb) == Some([]) && groups(mb) == Some([g])
    requires b.blobs == [Blob(kid, kb), Blob(mid, mb)] && b.snapshots == []
    requires b.frames == [Frame(agentId, 0, 0, 0.0, true, [], Some(kid), None), Frame(agentId, 1, 1, 0.1, false, [], Some(mid), None)]
    ensures BlobsThere(b, sections, groups) && FramesProper(b.frames)
    ensures FramesBack(b.frames) == b.frames && !ComesBack(b, idOf, sections, groups)
  {
    var k, f := b.frames[0], b.frames[1];
    var stored := map[kid := kb, mid := mb];
    TwoBlobs(b.blobs, kid, mid, kb, mb);
    TwoFrames(k, f);
    assert SectionIds([], sections) == {} && Distinct(idOf, Sort(ByTick, [])) == [];
    assert FrameThere(k, stored, groups) && FrameThere(f, stored, groups);
    assert SectionsIn(b, idOf, sections) == {};
    hide BlobMap, Sort, SectionIds, Distinct;
    MissingGroup(k, f, stored, groups, g);
  }

  lemma TwoBlobs(blobs: seq<Blob>, kid: string, mid: string, kb: seq<byte>, mb: seq<byte>)
    requires blobs == [Blob(kid, kb), Blob(mid, mb)] && kid != mid
    ensures BlobMap(blobs) == map[kid := kb, mid := mb] && Ids(blobs) == {kid, mid}
  {
    var first := blobs[..1];
    assert blobs[..|blobs| - 1] == first && first[..|first| - 1] == [] && first[|first| - 1] == blobs[0];
    assert BlobMap([]) == map[];
    assert BlobMap(first) == map[kid := kb];
    BlobMapHas(blobs);
    assert Ids(blobs) == {kid, mid} by { assert blobs[0] in blobs && blobs[1] in blobs; }
  }

  lemma TwoFrames(k: Frame, f: Frame)
    requires k.agentId == f.agentId && k.seqNo < f.seqNo && k.tick <= f.tick && k.keyframe
    ensures FramesProper([k, f]) && FramesBack([k, f]) == [k, f]
  {
    var fs := [k, f];
    assert fs[1..] == [f] && [f][1..] == [];
    assert Sort(ByFrame, [f]) == [f];
    assert Sort(ByFrame, fs) == fs;
    assert HasKeyframe(fs, k.agentId) by { assert k in fs; }
    hide Sort;
    FilterAll(WithKeyframe(fs), fs);
  }

  lemma MissingGroup(k: Frame, f: Frame, stored: map<string, seq<byte>>, groups: seq<byte> -> Option<seq<string>>, g: string)
    requires k.blobId.Some? && f.blobId.Some? && k.blobId != f.blobId && k.blobId.value in stored && f.blobId.value in stored
    requires groups(stored[k.blobId.value]) == Some([]) && groups(stored[f.blobId.value]) == Some([g]) && g !in stored
    ensures !AllWhole(stored, [k, f], {}, groups)
  {
    var fs := [k, f];
    assert fs[0] == k && fs[1] == f;
    assert Opens(stored, fs, {}, groups, 1);
    assert g in SetOf([g]);
    assert !Whole(stored, fs, {}, groups, 1);
  }

  lemma ReadAreFrames(fs: seq<Frame>)
    ensures forall f :: f in FramesBack(fs) ==> f in fs
  {
    FramesTotal();
    SortedSameElements(ByFrame, fs);
    FilterMembers(WithKeyframe(fs), Sort(ByFrame, fs));
    hide Sort, TotalOrder, Filter;
  }

  // What is read of an imported run besides its frames and blobs.
  ghost predicate SameRun(b: Bundle, back: Bundle, idOf: seq<byte> -> string, to: string, version: Option<nat>) {
    && back.header == HeaderFor(b, to, version)
    && back.inputs == b.inputs
    && back.records == Carried(b.records, b.header.runId, to)
    && back.snapshots == SnapshotsOf(b, idOf)
    && back.metrics == Some(Sort(ByMetric, b.metrics.GetOr([])))
  }

  // Its records, samples and each agent's frames are rearranged, and of its snapshots each is there or one of the same ID.
  ghost predicate NothingLost(b: Bundle, back: Bundle, idOf: seq<byte> -> string) {
    && multiset(Sort(BySeq, b.records)) == multiset(b.records)
    && back.metrics.Some? && multiset(back.metrics.value) == multiset(b.metrics.GetOr([]))
    && SameIds(idOf, b.snapshots, back.snapshots) && SortedBy(Listed(idOf), back.snapshots)
    && forall a :: multiset(OfAgent(Sort(ByFrame, b.frames), a)) == multiset(OfAgent(b.frames, a))
  }

  // Renamed back its records are the bundle's exactly when what they refer to can be; every edge between them is kept and none made
  // exactly when none of their references is a stray.
  ghost predicate RecordsBack(b: Bundle, records: seq<TraceRecord>, to: string) {
    var from := b.header.runId;
    && (RenamedAll(records, to, from) == Sort(BySeq, b.records) <==> forall r :: r in b.records ==> AllUndoable(r, from, to))
    && (EdgesKept(b.records, from, to) <==> NoStrays(b.records, from, to))
  }

  lemma AllThere(b: Bundle, back: Bundle, idOf: seq<byte> -> string, to: string, version: Option<nat>)
    requires RecordsProper(b.records, b.header.runId) && SameRun(b, back, idOf, to, version)
    ensures NothingLost(b, back, idOf) && RecordsBack(b, back.records, to)
  {
    var from := b.header.runId;
    RecordsCarried(b.records, from, to);
    CarriedBack(b.records, from, to);
    EdgesKeptWhen(b.records, from, to);
    MetricsCarried(b);
    SnapshotsCarried(b, idOf);
    hide Sort, OfAgent, Carried, SnapshotsOf, SortedBy, SameIds, EdgesKept, NoStrays, AllUndoable, Renamed, RenamedAll, Listed, Ordered;
    forall a ensures multiset(OfAgent(Sort(ByFrame, b.frames), a)) == multiset(OfAgent(b.frames, a)) { AgentFramesSame(b.frames, a); }
  }

  // A scenario that came with the run and is the run's is there with its content.
  ghost predicate SameScenario(b: Bundle, back: Bundle) {
    b.scenario.Some? && b.header.scenarioId == Some(b.scenario.value.id) ==> HasHash(back.scenario, b.scenario.value.contentHash)
  }

  lemma ScenarioBack(b: Bundle, scenarios: map<string, seq<Option<Scenario>>>, to: string)
    requires b.scenario.Some? && b.header.scenarioId == Some(b.scenario.value.id)
    ensures HasHash(ScenarioOf(ScenariosAfter(scenarios, b), HeaderFor(b, to, VersionFor(scenarios, b))), b.scenario.value.contentHash)
  {
    SavedHolds(scenarios, b.scenario.value);
    hide Saved, VersionSaved;
  }

  // What a bundle must hold to be exported again once it is imported: the blobs of the frames that come back, and the groups of the
  // manifests among them that are opened.
  ghost predicate ComesBack(b: Bundle, idOf: seq<byte> -> string, sections: seq<byte> -> seq<string>,
                            groups: seq<byte> -> Option<seq<string>>) {
    AllWhole(BlobMap(b.blobs), FramesBack(b.frames), SectionsIn(b, idOf, sections), groups)
  }

  // A proper bundle comes back when its frames that are no keyframes name only blobs it holds.
  lemma DeltasComeBack(b: Bundle, idOf: seq<byte> -> string, sections: seq<byte> -> seq<string>, groups: seq<byte> -> Option<seq<string>>)
    requires BlobsThere(b, sections, groups) && DeltasWhole(b, groups)
    ensures ComesBack(b, idOf, sections, groups)
  {
    ReadAreFrames(b.frames);
    hide BlobsThere, DeltasWhole, FramesBack, Whole, SectionsIn;
    var read := FramesBack(b.frames);
    forall k | 0 <= k < |read| ensures Whole(BlobMap(b.blobs), read, SectionsIn(b, idOf, sections), groups, k) {
      WholeWhen(b, read, SectionsIn(b, idOf, sections), sections, groups, k);
    }
  }

  // A bundle written as a run and read out of it again is the same run under a new ID: its header but for the ID, where it came from
  // and the number of its scenario's version; its inputs; its records, renamed; its snapshots and samples, in the store's order; all
  // frames of every agent with a keyframe; and of its blobs just those these refer to. While no write fails it comes back just when
  // the bundle is proper, is taken, and holds what is read of it.
  method WriteThenRead(db: Database, b: Bundle) returns (r: Result<Bundle, ImportError>, to: string)
    requires db.Valid()
    modifies db
    ensures db.Valid() && to == db.names(old(db.given)) && db.writes >= old(db.writes)
    ensures db.Through(old(db.writes), db.writes) ==>
      (r.Ok? <==> db.Proper(b) && db.Taken(b, old(db.scenarios)) && ComesBack(b, db.idOf, db.sections, db.groups))
    ensures r.Err? && r.error.NotRead? ==> !ComesBack(b, db.idOf, db.sections, db.groups) && r.error.why == BrokenRecording
    ensures r.Ok? ==> Returned(b, r.value, db, to, old(db.scenarios))
  {
    to := db.names(db.given);
    ghost var before := db.scenarios;
    var written := db.WriteRunBundle(b);
    hide *;
    if written.Err? { return Err(NotWritten(written.error)), to; }
    to := written.value;
    ghost var version := VersionFor(before, b);
    ghost var run := Imported(b, db.idOf, to, version);
    assert db.runs[to] == run && to in db.runs;
    ProperParts(db, b, before);
    ImportedIsKept(b, db.idOf, to, version);
    var back := db.ReadRunBundle(to);
    ImportedParts(b, db.idOf, to, version, db.sections);
    BundleFramesRead(b.frames);
    ComesBackIs(b, db.idOf, db.sections, db.groups);
    if back.Err? { return Err(NotRead(back.error)), to; }
    BackIs(b, back.value, db, to, before);
    r := Ok(back.value);
  }

  lemma ComesBackIs(b: Bundle, idOf: seq<byte> -> string, sections: seq<byte> -> seq<string>, groups: seq<byte> -> Option<seq<string>>)
    ensures ComesBack(b, idOf, sections, groups)
       <==> AllWhole(BlobMap(b.blobs), FramesBack(b.frames), SectionsIn(b, idOf, sections), groups)
  {
  }

  // What comes back of a bundle.
  ghost predicate Returned(b: Bundle, back: Bundle, db: Database, to: string, scenarios: map<string, seq<Option<Scenario>>>) {
    && SameRun(b, back, db.idOf, to, VersionFor(scenarios, b)) && SameScenario(b, back)
    && NothingLost(b, back, db.idOf) && RecordsBack(b, back.records, to)
    && back.frames == FramesBack(b.frames)
    && Gathered(back.blobs, BlobMap(b.blobs))
    && forall x :: x in Ids(back.blobs) <==>
         Comes(BlobMap(b.blobs), back.frames, SectionsIn(b, db.idOf, db.sections), db.groups, |back.frames|, x)
  }

  // The sections its snapshots refer to that it holds.
  function SectionsIn(b: Bundle, idOf: seq<byte> -> string, sections: seq<byte> -> seq<string>): set<string> {
    SectionIds(Distinct(idOf, Sort(ByTick, b.snapshots)), sections) * BlobMap(b.blobs).Keys
  }

  lemma ProperParts(db: Database, b: Bundle, scenarios: map<string, seq<Option<Scenario>>>)
    requires db.Proper(b) && db.Taken(b, scenarios)
    ensures RecordsProper(b.records, b.header.runId) && FramesProper(b.frames) && NoRepeats(Sort(ByMetric, b.metrics.GetOr([])))
    ensures BlobsThere(b, db.sections, db.groups)
  {
    NoProblem(b, db.shapes, db.sections, db.groups);
    hide ProblemOf, RecordsProper, FramesProper, BlobsThere, NoRepeats, Sort;
  }

  lemma ImportedParts(b: Bundle, idOf: seq<byte> -> string, to: string, version: Option<nat>, sections: seq<byte> -> seq<string>)
    ensures var run := Imported(b, idOf, to, version);
      && run.frames == Sort(ByFrame, b.frames) && run.blobs == BlobMap(b.blobs) && SectionsOf(run, sections) == SectionsIn(b, idOf, sections)
  {
    hide Sort, BlobMap, Distinct, SectionIds, Carried;
  }

  lemma BackIs(b: Bundle, back: Bundle, db: Database, to: string, scenarios: map<string, seq<Option<Scenario>>>)
    requires RecordsProper(b.records, b.header.runId)
    requires var run := Imported(b, db.idOf, to, VersionFor(scenarios, b));
      back == Bundle(run.header, ScenarioOf(ScenariosAfter(scenarios, b), run.header), run.inputs, run.records,
                     Sort(Listed(db.idOf), run.snapshots), back.blobs, FramesBack(b.frames), Some(run.metrics))
    requires Gathered(back.blobs, BlobMap(b.blobs))
    requires forall x :: x in Ids(back.blobs) <==>
      Comes(BlobMap(b.blobs), FramesBack(b.frames), SectionsIn(b, db.idOf, db.sections), db.groups, |FramesBack(b.frames)|, x)
    ensures Returned(b, back, db, to, scenarios)
  {
    hide Sort, BlobMap, Distinct, Carried, ScenarioOf, ScenariosAfter, VersionFor, HasHash, Listed, FramesBack, NothingLost, RecordsBack,
      Gathered, Comes, Ids, SectionsIn, RecordsProper;
    if b.scenario.Some? && b.header.scenarioId == Some(b.scenario.value.id) { ScenarioBack(b, scenarios, to); }
    AllThere(b, back, db.idOf, to, VersionFor(scenarios, b));
  }
}
