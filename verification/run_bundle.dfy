// A run written to the database from a bundle, and read out of it as one (packages/storage/src/run-bundle.ts).
module RunBundles {
  import opened Wrappers
  import opened Trace
  import opened Sorting
  import opened Paging
  import opened Base64
  import opened BeliefFrames
  import opened RunFiles
  import opened StoredLog
  import opened RunRenaming
  import opened RunBlobs

  // ---- the orders in which the store keeps things ----------------------------------------------------------------------------------------------

  predicate ByTick(a: Snapshot, b: Snapshot) { a.tick <= b.tick }

  predicate ByFrame(a: Frame, b: Frame) { (a.agentId != b.agentId && LexLe(a.agentId, b.agentId)) || (a.agentId == b.agentId && a.seqNo <= b.seqNo) }

  predicate ByMetric(a: Metric, b: Metric) {
    || (a.source != b.source && LexLe(a.source, b.source))
    || (a.source == b.source && a.name != b.name && LexLe(a.name, b.name))
    || (a.source == b.source && a.name == b.name && a.tick <= b.tick)
  }

  // How a store lists snapshots.
  function Listed(idOf: seq<byte> -> string): (Snapshot, Snapshot) -> bool {
    (a: Snapshot, b: Snapshot) =>
      a.tick < b.tick || (a.tick == b.tick && (a.seqNo < b.seqNo || (a.seqNo == b.seqNo && LexLe(idOf(a.bytes), idOf(b.bytes)))))
  }

  lemma OrdersAreTotal(idOf: seq<byte> -> string)
    ensures TotalOrder(ByTick) && TotalOrder(ByFrame) && TotalOrder(ByMetric) && TotalOrder(Listed(idOf))
  {
    assert TotalOrder(ByTick);
    FramesTotal();
    MetricsTotal();
    ListedTotal(idOf);
  }

  lemma LexFacts(a: string, b: string, c: string)
    ensures LexLe(a, b) || LexLe(b, a)
    ensures LexLe(a, b) && LexLe(b, a) ==> a == b
    ensures LexLe(a, b) && LexLe(b, c) ==> LexLe(a, c)
  {
    LexTotal(a, b);
    if LexLe(a, b) && LexLe(b, c) { LexTransitive(a, b, c); }
  }

  lemma FramesTotal()
    ensures TotalOrder(ByFrame)
  {
    hide LexLe;
    forall x: Frame, y: Frame ensures ByFrame(x, y) || ByFrame(y, x) { LexFacts(x.agentId, y.agentId, ""); }
    forall x: Frame, y: Frame, z: Frame | ByFrame(x, y) && ByFrame(y, z) ensures ByFrame(x, z) {
      LexFacts(x.agentId, y.agentId, z.agentId);
    }
  }

  lemma MetricsTotal()
    ensures TotalOrder(ByMetric)
  {
    hide LexLe;
    forall x: Metric, y: Metric ensures ByMetric(x, y) || ByMetric(y, x) {
      LexFacts(x.source, y.source, "");
      LexFacts(x.name, y.name, "");
    }
    forall x: Metric, y: Metric, z: Metric | ByMetric(x, y) && ByMetric(y, z) ensures ByMetric(x, z) {
      LexFacts(x.source, y.source, z.source);
      LexFacts(x.name, y.name, z.name);
    }
  }

  lemma ListedTotal(idOf: seq<byte> -> string)
    ensures TotalOrder(Listed(idOf))
  {
    hide LexLe;
    var le := Listed(idOf);
    forall x: Snapshot, y: Snapshot ensures le(x, y) || le(y, x) { LexFacts(idOf(x.bytes), idOf(y.bytes), ""); }
    forall x: Snapshot, y: Snapshot, z: Snapshot | le(x, y) && le(y, z) ensures le(x, z) {
      LexFacts(idOf(x.bytes), idOf(y.bytes), idOf(z.bytes));
    }
  }

  // The frames of each agent: numbers of their own, and with them the ticks.
  ghost predicate FramesRise(fs: seq<Frame>) {
    forall i, j :: 0 <= i < j < |fs| && fs[i].agentId == fs[j].agentId ==> fs[i].seqNo < fs[j].seqNo && fs[i].tick <= fs[j].tick
  }

  lemma {:induction false} AgentsInOrder(fs: seq<Frame>, a: string)
    requires FramesRise(fs)
    ensures InOrder(OfAgent(fs, a))
  {
    if fs != [] {
      assert FramesRise(fs[1..]);
      AgentsInOrder(fs[1..], a);
      FilterMembers(ByAgent(a), fs[1..]);
      var rest := OfAgent(fs[1..], a);
      assert OfAgent(fs, a) == if fs[0].agentId == a then [fs[0]] + rest else rest;
      assert forall f :: f in rest ==> f in fs[1..] && f.agentId == a;
      if fs[0].agentId == a {
        forall f | f in rest ensures fs[0].seqNo < f.seqNo && fs[0].tick <= f.tick {
          var k :| 0 <= k < |fs[1..]| && fs[1..][k] == f;
          assert fs[k + 1] == f;
        }
        hide Filter, FramesRise;
      }
    }
  }

  // ---- a run ------------------------------------------------------------------------------------------------------------------------------------

  datatype Run = Run(header: Header, inputs: seq<Value>, records: seq<TraceRecord>, snapshots: seq<Snapshot>, blobs: map<string, seq<byte>>,
                     frames: seq<Frame>, metrics: seq<Metric>)

  // Blobs by ID; one that is there already is left as it is.
  function BlobMap(blobs: seq<Blob>): map<string, seq<byte>> {
    if blobs == [] then map[]
    else
      var before, last := BlobMap(blobs[..|blobs| - 1]), blobs[|blobs| - 1];
      if last.id in before then before else before[last.id := last.bytes]
  }

  predicate HasId(idOf: seq<byte> -> string, xs: seq<Snapshot>, x: Snapshot) { exists s :: s in xs && idOf(s.bytes) == idOf(x.bytes) }

  // Snapshots with an ID of their own; `idOf` is what a snapshot is known by.
  function Distinct(idOf: seq<byte> -> string, xs: seq<Snapshot>): seq<Snapshot> {
    if xs == [] then []
    else
      var before, last := Distinct(idOf, xs[..|xs| - 1]), xs[|xs| - 1];
      if HasId(idOf, before, last) then before else before + [last]
  }

  lemma {:induction false} BlobMapHas(blobs: seq<Blob>)
    ensures BlobMap(blobs).Keys == Ids(blobs)
  {
    if blobs != [] {
      var before, last := blobs[..|blobs| - 1], blobs[|blobs| - 1];
      BlobMapHas(before);
      IdsMore(before, last);
      assert blobs == before + [last];
    }
  }

  // The first version of a scenario with this content, if there is one; versions count from 1, a deleted one is empty.
  function VersionWith(versions: seq<Option<Scenario>>, hash: string): (v: Option<nat>)
    ensures v.Some? ==> 1 <= v.value <= |versions| && HasHash(versions[v.value - 1], hash)
    ensures v.None? ==> forall k :: 0 <= k < |versions| ==> !HasHash(versions[k], hash)
  {
    if versions == [] then None
    else
      var before := VersionWith(versions[..|versions| - 1], hash);
      if before.Some? then before else if HasHash(versions[|versions| - 1], hash) then Some(|versions|) else None
  }

  predicate HasHash(s: Option<Scenario>, hash: string) { s.Some? && s.value.contentHash == hash }

  function VersionsOf(scenarios: map<string, seq<Option<Scenario>>>, id: string): seq<Option<Scenario>> {
    if id in scenarios then scenarios[id] else []
  }

  // The versions once the scenario a bundle brings is there, and which of them it is: one with the same content when there is one, a
  // new one behind them otherwise.
  function Saved(scenarios: map<string, seq<Option<Scenario>>>, s: Scenario): map<string, seq<Option<Scenario>>> {
    var versions := VersionsOf(scenarios, s.id);
    if VersionWith(versions, s.contentHash).Some? then scenarios
    else scenarios[s.id := versions + [Some(s.(version := |versions| + 1))]]
  }

  function VersionSaved(scenarios: map<string, seq<Option<Scenario>>>, s: Scenario): nat {
    VersionWith(VersionsOf(scenarios, s.id), s.contentHash).GetOr(|VersionsOf(scenarios, s.id)| + 1)
  }

  lemma SavedHolds(scenarios: map<string, seq<Option<Scenario>>>, s: Scenario)
    ensures var after, v := VersionsOf(Saved(scenarios, s), s.id), VersionSaved(scenarios, s);
      && 1 <= v <= |after| && HasHash(after[v - 1], s.contentHash)
      && VersionsOf(scenarios, s.id) <= after
      && forall id :: id != s.id ==> VersionsOf(Saved(scenarios, s), id) == VersionsOf(scenarios, id)
  {
  }

  predicate BringsScenario(b: Bundle) { b.scenario.Some? && b.header.scenarioId.Some? }

  function ScenariosAfter(scenarios: map<string, seq<Option<Scenario>>>, b: Bundle): map<string, seq<Option<Scenario>>> {
    if BringsScenario(b) then Saved(scenarios, b.scenario.value) else scenarios
  }

  function VersionFor(scenarios: map<string, seq<Option<Scenario>>>, b: Bundle): Option<nat> {
    if BringsScenario(b) then Some(VersionSaved(scenarios, b.scenario.value)) else b.header.scenarioVersion
  }

  // A header names a scenario and a version of it that is stored, or neither.
  predicate NamesStored(scenarios: map<string, seq<Option<Scenario>>>, h: Header) {
    if h.scenarioId.None? then h.scenarioVersion.None?
    else
      var versions := VersionsOf(scenarios, h.scenarioId.value);
      h.scenarioVersion.Some? && 1 <= h.scenarioVersion.value <= |versions| && versions[h.scenarioVersion.value - 1].Some?
  }

  // That is so or not whatever else the header says.
  lemma NamesOnly(scenarios: map<string, seq<Option<Scenario>>>, h: Header)
    ensures forall to: string, origin: Option<string> ::
      NamesStored(scenarios, h.(runId := to, importedFrom := origin)) == NamesStored(scenarios, h)
  {
  }

  // What is written of a bundle under a new ID, with this version of its scenario.
  function HeaderFor(b: Bundle, to: string, version: Option<nat>): Header {
    b.header.(runId := to, importedFrom := Some(b.header.importedFrom.GetOr(b.header.runId)), scenarioVersion := version)
  }

  function Imported(b: Bundle, idOf: seq<byte> -> string, to: string, version: Option<nat>): Run {
    Run(HeaderFor(b, to, version), b.inputs, Carried(b.records, b.header.runId, to), Distinct(idOf, Sort(ByTick, b.snapshots)),
        BlobMap(b.blobs), Sort(ByFrame, b.frames), Sort(ByMetric, b.metrics.GetOr([])))
  }

  // ---- what a bundle must be ---------------------------------------------------------------------------------------------------------------------

  // Every section a snapshot refers to, every blob a frame names and every group a keyframe's manifest names is in the bundle.
  ghost predicate BlobsThere(b: Bundle, sections: seq<byte> -> seq<string>, groups: seq<byte> -> Option<seq<string>>) {
    && SectionIds(b.snapshots, sections) <= Ids(b.blobs)
    && forall f :: f in b.frames ==> FrameThere(f, BlobMap(b.blobs), groups)
  }

  predicate FrameThere(f: Frame, blobs: map<string, seq<byte>>, groups: seq<byte> -> Option<seq<string>>) {
    f.blobId.Some? ==>
      && f.blobId.value in blobs
      && (f.keyframe ==> groups(blobs[f.blobId.value]).Some? && SetOf(groups(blobs[f.blobId.value]).value) <= blobs.Keys)
  }

  ghost predicate FramesProper(fs: seq<Frame>) { |fs| <= PAGE && FramesRise(Sort(ByFrame, fs)) }

  // No two samples of a series at one tick.
  predicate NoRepeats(ms: seq<Metric>) { forall i, j :: 0 <= i < j < |ms| ==> MetricKey()(ms[i]) != MetricKey()(ms[j]) }

  lemma RepeatsStay(ms: seq<Metric>, k: nat)
    requires k <= |ms| && NoRepeats(ms)
    ensures NoRepeats(ms[..k])
  {
  }

  lemma NoMetrics()
    ensures NoRepeats([])
  {
  }

  // ---- the database ---------------------------------------------------------------------------------------------------------------------------

  // What is wrong with a bundle: it is no run's, its time goes backwards, or its recording is broken; or a write failed.
  datatype WriteError = CorruptRun | TimeGoesBack | RecordingIsBroken | WriteFailed

  // The shapes the parts of a bundle must have; the inputs are looked at together, a blob with its ID.
  datatype Shapes = Shapes(header: Header -> bool, recording: Header -> bool, record: TraceRecord -> bool, inputs: seq<Value> -> bool,
                           blob: Blob -> bool, snapshot: Snapshot -> bool, frame: Frame -> bool)

  ghost predicate RecordsShaped(rs: seq<TraceRecord>, run: string, shape: TraceRecord -> bool) {
    forall r :: r in rs ==> shape(r) && r.runId == run && r.id == RecordId(run, r.seqNo)
  }

  ghost predicate NumbersRise(rs: seq<TraceRecord>) { forall i, j :: 0 <= i < j < |rs| ==> rs[i].seqNo < rs[j].seqNo }

  ghost predicate TimesRise(rs: seq<TraceRecord>) { forall i, j :: 0 <= i < j < |rs| ==> rs[i].simTime <= rs[j].simTime }

  // The first thing wrong with the records: their shape and IDs, then two of one number, then the time.
  ghost function RecordsProblem(rs: seq<TraceRecord>, run: string, shape: TraceRecord -> bool): Option<WriteError> {
    if !RecordsShaped(rs, run, shape) || !NumbersRise(Sort(BySeq, rs)) then Some(CorruptRun)
    else if !TimesRise(Sort(BySeq, rs)) then Some(TimeGoesBack)
    else None
  }

  // The recording: its blobs, snapshots and frames have their shapes, and what they refer to is there.
  ghost predicate RecordingProper(b: Bundle, shapes: Shapes, sections: seq<byte> -> seq<string>, groups: seq<byte> -> Option<seq<string>>) {
    && (forall x :: x in b.blobs ==> shapes.blob(x))
    && (forall x :: x in b.snapshots ==> shapes.snapshot(x))
    && (forall x :: x in b.frames ==> shapes.frame(x))
    && BlobsThere(b, sections, groups) && FramesProper(b.frames)
  }

  // Which problem a bundle is refused for, its parts being looked at in this order.
  ghost function ProblemOf(b: Bundle, shapes: Shapes, sections: seq<byte> -> seq<string>, groups: seq<byte> -> Option<seq<string>>):
    Option<WriteError>
  {
    if !shapes.header(b.header) then Some(CorruptRun)
    else if !shapes.recording(b.header) then Some(RecordingIsBroken)
    else
      var problem := RecordsProblem(b.records, b.header.runId, shapes.record);
      if problem.Some? then problem
      else if !shapes.inputs(b.inputs) then Some(CorruptRun)
      else if !RecordingProper(b, shapes, sections, groups) then Some(RecordingIsBroken)
      else None
  }

  lemma NoProblem(b: Bundle, shapes: Shapes, sections: seq<byte> -> seq<string>, groups: seq<byte> -> Option<seq<string>>)
    requires ProblemOf(b, shapes, sections, groups).None?
    ensures RecordsProper(b.records, b.header.runId) && BlobsThere(b, sections, groups) && FramesProper(b.frames)
  {
    hide BlobsThere, FramesProper, Sort, RecordId;
  }

  datatype ReadError = UnknownRun | BrokenRecording

  // One run is now this one, and no other has changed.
  ghost predicate Only(before: map<string, Run>, after: map<string, Run>, id: string, run: Run) {
    id in before && after == before[id := run]
  }

  lemma OnlyTwice(before: map<string, Run>, mid: map<string, Run>, after: map<string, Run>, id: string, x: Run, y: Run)
    requires Only(before, mid, id, x) && Only(mid, after, id, y)
    ensures Only(before, after, id, y)
  {
  }

  lemma OnlySame(runs: map<string, Run>, id: string)
    requires id in runs
    ensures Only(runs, runs, id, runs[id])
  {
  }

  lemma OnlyHas(before: map<string, Run>, after: map<string, Run>, id: string, run: Run)
    requires Only(before, after, id, run)
    ensures id in after && after[id] == run
  {
  }

  class Database {
    // The IDs runs are given, one after the other; how a snapshot is known, and which blobs it refers to; which groups a manifest
    // names; which writes of the store fail; and which shapes its parts have.
    const names: nat -> string
    const idOf: seq<byte> -> string
    const sections: seq<byte> -> seq<string>
    const groups: seq<byte> -> Option<seq<string>>
    const fails: nat -> bool
    const shapes: Shapes
    var writes: nat
    var given: nat
    var runs: map<string, Run>
    var scenarios: map<string, seq<Option<Scenario>>>

    // IDs differ, and none that is still to be given is in use.
    ghost predicate Valid()
      reads this
    {
      && (forall i, j :: 0 <= i < j ==> names(i) != names(j))
      && (forall k :: k >= given ==> names(k) !in runs)
    }

    constructor (names: nat -> string, idOf: seq<byte> -> string, sections: seq<byte> -> seq<string>,
                 groups: seq<byte> -> Option<seq<string>>, fails: nat -> bool, shapes: Shapes)
      requires forall i, j :: 0 <= i < j ==> names(i) != names(j)
      ensures Valid() && runs == map[] && scenarios == map[] && given == 0 && writes == 0
      ensures this.names == names && this.idOf == idOf && this.sections == sections && this.groups == groups
      ensures this.fails == fails && this.shapes == shapes
    {
      this.names, this.idOf, this.sections, this.groups, this.fails, this.shapes := names, idOf, sections, groups, fails, shapes;
      writes, given, runs, scenarios := 0, 0, map[], map[];
    }

    // A write of the store goes through, or fails.
    method Write() returns (through: bool)
      modifies this`writes
      ensures writes == old(writes) + 1 && through == !fails(old(writes))
    {
      through := !fails(writes);
      writes := writes + 1;
    }

    method AllocateRunId() returns (id: string)
      requires Valid()
      modifies this`given
      ensures Valid() && given == old(given) + 1 && id == names(old(given)) && id !in runs
    {
      id := names(given);
      given := given + 1;
    }

    // A run is made when the scenario its header names is stored.
    method Create(header: Header) returns (through: bool)
      modifies this`writes, this`runs
      ensures writes == old(writes) + 1 && through == (NamesStored(scenarios, header) && !fails(old(writes)))
      ensures runs == if through then old(runs)[header.runId := Run(header, [], [], [], map[], [], [])] else old(runs)
    {
      var written := Write();
      through := written && NamesStored(scenarios, header);
      if through { runs := runs[header.runId := Run(header, [], [], [], map[], [], [])]; }
    }

    // Changes one run, when the write goes through.
    method Put(id: string, run: Run) returns (through: bool)
      requires id in runs
      modifies this`writes, this`runs
      ensures writes == old(writes) + 1 && through == !fails(old(writes))
      ensures through ==> Only(old(runs), runs, id, run)
      ensures !through ==> runs == old(runs)
    {
      through := Write();
      if through { runs := runs[id := run]; }
    }

    method Delete(id: string)
      modifies this`runs
      ensures runs == old(runs) - {id}
    {
      runs := runs - {id};
    }

    // No write between these failed.
    ghost predicate Through(from: nat, to: nat) { forall k :: from <= k < to ==> !fails(k) }

    method AppendRecords(id: string, records: seq<TraceRecord>) returns (ok: bool)
      requires id in runs && runs[id].records == []
      modifies this`writes, this`runs
      ensures ok ==> Only(old(runs), runs, id, old(runs)[id].(records := records))
      ensures !ok ==> id in runs && Only(old(runs), runs, id, runs[id])
      ensures writes >= old(writes) && (Through(old(writes), writes) ==> ok)
    {
      var i := 0;
      while i < |records|
        invariant i <= |records| && writes >= old(writes)
        invariant Only(old(runs), runs, id, old(runs)[id].(records := records[..i]))
        invariant Through(old(writes), writes)
      {
        var next := if i + PAGE < |records| then i + PAGE else |records|;
        assert records[..i] + records[i..next] == records[..next];
        var through := Put(id, runs[id].(records := runs[id].records + records[i..next]));
        if !through { return false; }
        i := next;
      }
      assert records[..|records|] == records;
      return true;
    }

    // A page of metrics that repeats a sample is refused.
    method AppendMetrics(id: string, metrics: seq<Metric>) returns (ok: bool)
      requires id in runs && runs[id].metrics == []
      modifies this`writes, this`runs
      ensures ok ==> NoRepeats(metrics) && Only(old(runs), runs, id, old(runs)[id].(metrics := metrics))
      ensures !ok ==> id in runs && Only(old(runs), runs, id, runs[id])
      ensures writes >= old(writes) && (Through(old(writes), writes) && NoRepeats(metrics) ==> ok)
    {
      hide NoRepeats;
      NoMetrics();
      var i := 0;
      while i < |metrics|
        invariant i <= |metrics| && writes >= old(writes)
        invariant Only(old(runs), runs, id, old(runs)[id].(metrics := metrics[..i]))
        invariant Through(old(writes), writes) && NoRepeats(metrics[..i])
      {
        var next := if i + PAGE < |metrics| then i + PAGE else |metrics|;
        assert metrics[..i] + metrics[i..next] == metrics[..next];
        if !NoRepeats(runs[id].metrics + metrics[i..next]) {
          if NoRepeats(metrics) { RepeatsStay(metrics, next); assert false; }
          return false;
        }
        var through := Put(id, runs[id].(metrics := runs[id].metrics + metrics[i..next]));
        if !through { return false; }
        i := next;
      }
      assert metrics[..|metrics|] == metrics;
      return true;
    }

    method AppendFrames(id: string, frames: seq<Frame>) returns (ok: bool)
      requires id in runs && runs[id].frames == []
      modifies this`writes, this`runs
      ensures ok ==> Only(old(runs), runs, id, old(runs)[id].(frames := frames))
      ensures !ok ==> id in runs && Only(old(runs), runs, id, runs[id])
      ensures writes >= old(writes) && (Through(old(writes), writes) ==> ok)
    {
      var i := 0;
      while i < |frames|
        invariant i <= |frames| && writes >= old(writes)
        invariant Only(old(runs), runs, id, old(runs)[id].(frames := frames[..i]))
        invariant Through(old(writes), writes)
      {
        var next := if i + PAGE < |frames| then i + PAGE else |frames|;
        assert frames[..i] + frames[i..next] == frames[..next];
        var through := Put(id, runs[id].(frames := runs[id].frames + frames[i..next]));
        if !through { return false; }
        i := next;
      }
      assert frames[..|frames|] == frames;
      return true;
    }

    // A snapshot that is there already is not written again.
    method WriteSnapshots(id: string, snapshots: seq<Snapshot>) returns (ok: bool)
      requires id in runs && runs[id].snapshots == []
      modifies this`writes, this`runs
      ensures ok ==> Only(old(runs), runs, id, old(runs)[id].(snapshots := Distinct(idOf, snapshots)))
      ensures !ok ==> id in runs && Only(old(runs), runs, id, runs[id])
      ensures writes >= old(writes) && (Through(old(writes), writes) ==> ok)
    {
      for i := 0 to |snapshots|
        invariant writes >= old(writes)
        invariant Only(old(runs), runs, id, old(runs)[id].(snapshots := Distinct(idOf, snapshots[..i])))
        invariant Through(old(writes), writes)
      {
        assert snapshots[..i + 1][..i] == snapshots[..i];
        var have := runs[id].snapshots;
        var known := HasId(idOf, have, snapshots[i]);
        var through := Put(id, runs[id].(snapshots := if known then have else have + [snapshots[i]]));
        if !through { return false; }
      }
      assert snapshots[..|snapshots|] == snapshots;
      return true;
    }

    // What a bundle must be before any of it is written.
    ghost predicate Proper(b: Bundle) { ProblemOf(b, shapes, sections, groups).None? }

    method BundleProblem(b: Bundle) returns (problem: Option<WriteError>)
      ensures problem == ProblemOf(b, shapes, sections, groups)
    {
      if !shapes.header(b.header) { return Some(CorruptRun); }
      if !shapes.recording(b.header) { return Some(RecordingIsBroken); }
      hide RecordsProblem, RecordingProper;
      problem := CheckRecords(b.records, b.header.runId, shapes.record);
      if problem.Some? { return; }
      if !shapes.inputs(b.inputs) { return Some(CorruptRun); }
      var fine := CheckRecording(b, shapes, sections, groups);
      return if fine then None else Some(RecordingIsBroken);
    }

    // Everything of a bundle goes into the run just made.
    method FillRun(id: string, b: Bundle, version: Option<nat>) returns (ok: bool)
      requires id in runs && runs[id] == Run(HeaderFor(b, id, version), [], [], [], map[], [], [])
      modifies this`writes, this`runs
      ensures id in runs && Only(old(runs), runs, id, runs[id])
      ensures ok ==> runs[id] == Imported(b, idOf, id, version) && NoRepeats(Sort(ByMetric, b.metrics.GetOr([])))
      ensures writes >= old(writes)
      ensures Through(old(writes), writes) && NoRepeats(Sort(ByMetric, b.metrics.GetOr([]))) ==> ok
    {
      hide Carried, Sort, Distinct, BlobMap, Only, NoRepeats;
      ok := FillRecords(id, b);
      if !ok { return; }
      ghost var mid := runs;
      OnlyHas(old(runs), runs, id, runs[id]);
      ok := FillRecording(id, b);
      OnlyTwice(old(runs), mid, runs, id, mid[id], runs[id]);
    }

    // The inputs and the records.
    method FillRecords(id: string, b: Bundle) returns (ok: bool)
      requires id in runs && runs[id].inputs == [] && runs[id].records == []
      modifies this`writes, this`runs
      ensures id in runs && Only(old(runs), runs, id, runs[id])
      ensures ok ==> runs[id] == old(runs)[id].(inputs := b.inputs, records := Carried(b.records, b.header.runId, id))
      ensures writes >= old(writes) && (Through(old(writes), writes) ==> ok)
    {
      hide Carried;
      if |b.inputs| > 0 {
        var through := Put(id, runs[id].(inputs := b.inputs));
        if !through { return false; }
      }
      ok := AppendRecords(id, Carried(b.records, b.header.runId, id));
    }

    // The blobs, snapshots, metrics and frames.
    method FillRecording(id: string, b: Bundle) returns (ok: bool)
      requires id in runs && runs[id].snapshots == [] && runs[id].metrics == [] && runs[id].frames == []
      modifies this`writes, this`runs
      ensures id in runs && Only(old(runs), runs, id, runs[id])
      ensures ok ==> runs[id] == old(runs)[id].(blobs := BlobMap(b.blobs), snapshots := Distinct(idOf, Sort(ByTick, b.snapshots)),
                                                metrics := Sort(ByMetric, b.metrics.GetOr([])), frames := Sort(ByFrame, b.frames))
      ensures ok ==> NoRepeats(Sort(ByMetric, b.metrics.GetOr([])))
      ensures writes >= old(writes)
      ensures Through(old(writes), writes) && NoRepeats(Sort(ByMetric, b.metrics.GetOr([]))) ==> ok
    {
      hide Sort, Distinct, BlobMap, Only, NoRepeats;
      OnlySame(runs, id);
      var through := Put(id, runs[id].(blobs := BlobMap(b.blobs)));
      if !through { return false; }
      ghost var m1 := runs;
      OnlyHas(old(runs), m1, id, old(runs)[id].(blobs := BlobMap(b.blobs)));
      ok := WriteSnapshots(id, Sort(ByTick, b.snapshots));
      OnlyHas(m1, runs, id, if ok then m1[id].(snapshots := Distinct(idOf, Sort(ByTick, b.snapshots))) else runs[id]);
      OnlyTwice(old(runs), m1, runs, id, m1[id], runs[id]);
      if !ok { return; }
      ghost var m2 := runs;
      ok := AppendMetrics(id, Sort(ByMetric, b.metrics.GetOr([])));
      OnlyHas(m2, runs, id, if ok then m2[id].(metrics := Sort(ByMetric, b.metrics.GetOr([]))) else runs[id]);
      OnlyTwice(old(runs), m2, runs, id, m2[id], runs[id]);
      if !ok { return; }
      ghost var m3 := runs;
      ok := AppendFrames(id, Sort(ByFrame, b.frames));
      OnlyHas(m3, runs, id, if ok then m3[id].(frames := Sort(ByFrame, b.frames)) else runs[id]);
      OnlyTwice(old(runs), m3, runs, id, m3[id], runs[id]);
    }

    // The version of the run's scenario that holds what the bundle brings, saved when there is none.
    method ScenarioVersion(s: Scenario) returns (version: Option<nat>)
      modifies this`writes, this`scenarios
      ensures writes >= old(writes) && (Through(old(writes), writes) ==> version.Some?)
      ensures version.Some? ==> version.value == VersionSaved(old(scenarios), s) && scenarios == Saved(old(scenarios), s)
      ensures version.None? ==> VersionWith(VersionsOf(scenarios, s.id), s.contentHash).None? && scenarios == old(scenarios)
    {
      var versions := VersionsOf(scenarios, s.id);
      version := None;
      for v := 1 to |versions| + 1
        invariant version == VersionWith(versions[..v - 1], s.contentHash)
      {
        assert versions[..v][..v - 1] == versions[..v - 1];
        if version.None? && HasHash(versions[v - 1], s.contentHash) { version := Some(v); }
      }
      assert versions[..|versions|] == versions;
      if version.None? {
        var through := Write();
        if !through { return; }
        scenarios := scenarios[s.id := versions + [Some(s.(version := |versions| + 1))]];
        version := Some(|versions| + 1);
      }
    }

    // What a store takes of a proper bundle: a header that refers to a stored scenario, and no sample twice.
    ghost predicate Taken(b: Bundle, scenarios: map<string, seq<Option<Scenario>>>) {
      && NamesStored(ScenariosAfter(scenarios, b), b.header.(scenarioVersion := VersionFor(scenarios, b)))
      && NoRepeats(Sort(ByMetric, b.metrics.GetOr([])))
    }

    // Writes a bundle as a run of its own. When it succeeds there is one run more, under an ID never given before: the bundle's,
    // renamed; and the scenario it brings is there, the same as before when it was. When it fails no run has come, and none has
    // changed. While no write fails it succeeds just for a proper bundle that is taken.
    method WriteRunBundle(b: Bundle) returns (r: Result<string, WriteError>)
      requires Valid()
      modifies this
      ensures Valid() && given >= old(given) && writes >= old(writes)
      ensures r.Err? ==> runs == old(runs) && (scenarios == old(scenarios) || scenarios == ScenariosAfter(old(scenarios), b))
      ensures r.Err? ==> (if Proper(b) then r.error == WriteFailed else Some(r.error) == ProblemOf(b, shapes, sections, groups))
      ensures !Proper(b) ==> r.Err? && scenarios == old(scenarios) && given == old(given) && writes == old(writes)
      ensures r.Ok? ==>
        && given == old(given) + 1 && r.value == names(old(given)) && r.value !in old(runs)
        && Taken(b, old(scenarios)) && scenarios == ScenariosAfter(old(scenarios), b)
        && runs == old(runs)[r.value := Imported(b, idOf, r.value, VersionFor(old(scenarios), b))]
      ensures Through(old(writes), writes) ==> (r.Ok? <==> Proper(b) && Taken(b, old(scenarios)))
    {
      hide ProblemOf, Imported, Saved, VersionSaved, VersionWith, NoRepeats, Sort, NamesStored;
      var problem := BundleProblem(b);
      if problem.Some? { return Err(problem.value); }
      var version := b.header.scenarioVersion;
      if b.scenario.Some? && b.header.scenarioId.Some? {
        version := ScenarioVersion(b.scenario.value);
        if version.None? { return Err(WriteFailed); }
      }
      NamesOnly(scenarios, b.header.(scenarioVersion := version));
      r := MakeRun(b, version);
    }

    // The new run: made, filled, and taken away again when a write of it fails.
    method MakeRun(b: Bundle, version: Option<nat>) returns (r: Result<string, WriteError>)
      requires Valid()
      modifies this`given, this`writes, this`runs
      ensures Valid() && given == old(given) + 1 && writes >= old(writes)
      ensures r.Err? ==> r.error == WriteFailed && runs == old(runs)
      ensures r.Ok? ==>
        && r.value == names(old(given)) && r.value !in old(runs) && runs == old(runs)[r.value := Imported(b, idOf, r.value, version)]
        && NamesStored(scenarios, HeaderFor(b, r.value, version)) && NoRepeats(Sort(ByMetric, b.metrics.GetOr([])))
      ensures Through(old(writes), writes) && NamesStored(scenarios, HeaderFor(b, names(old(given)), version)) ==>
        (NoRepeats(Sort(ByMetric, b.metrics.GetOr([]))) ==> r.Ok?)
    {
      hide Imported, Only, NoRepeats, Sort, NamesStored;
      var id := AllocateRunId();
      var origin := b.header.importedFrom.GetOr(b.header.runId);
      var header := b.header.(runId := id, importedFrom := Some(origin), scenarioVersion := version);
      var created := Create(header);
      if !created { return Err(WriteFailed); }
      ghost var empty, mid := runs[id], runs;
      var ok := FillRun(id, b, version);
      OneMore(old(runs), mid, runs, id, empty, runs[id]);
      if !ok {
        Delete(id);
        return Err(WriteFailed);
      }
      return Ok(id);
    }

    // ---- reading a run out of the database ---------------------------------------------------------------------------------------------------

    method GetScenario(h: Header) returns (s: Option<Scenario>)
      ensures s == ScenarioOf(scenarios, h)
    {
      if h.scenarioId.None? { return None; }
      var versions := VersionsOf(scenarios, h.scenarioId.value);
      if h.scenarioVersion.None? { return Latest(versions); }
      var v := h.scenarioVersion.value;
      return if 1 <= v <= |versions| then versions[v - 1] else None;
    }

    // Everything a run owns: its inputs, records, snapshots and metrics, all of them, once and in the store's order; the frames as
    // `ReadFrames` reads them; and of the blobs just those these refer to. It fails just on a run that is not there, and when the blob
    // of a frame it reads or a group of a manifest it opens is not stored.
    method ReadRunBundle(id: string) returns (r: Result<Bundle, ReadError>)
      requires id in runs ==> Kept(runs[id])
      ensures r == Err(UnknownRun) <==> id !in runs
      ensures id in runs ==>
        (r.Ok? <==> AllWhole(runs[id].blobs, AllAgentsRead(runs[id].frames, PAGE), SectionsOf(runs[id], sections), groups))
      ensures r.Ok? ==>
        var run := runs[id];
        var read := AllAgentsRead(run.frames, PAGE);
        && r.value == Bundle(run.header, ScenarioOf(scenarios, run.header), run.inputs, run.records, Sort(Listed(idOf), run.snapshots),
                             r.value.blobs, read, Some(run.metrics))
        && Gathered(r.value.blobs, run.blobs)
        && forall x :: x in Ids(r.value.blobs) <==> Comes(run.blobs, read, SectionsOf(run, sections), groups, |read|, x)
    {
      if id !in runs { return Err(UnknownRun); }
      var run := runs[id];
      hide *;
      var scenario := GetScenario(run.header);
      KeptParts(run);
      var records := ReadRecords(run.records);
      var snapshots := Sort(Listed(idOf), run.snapshots);
      SameSections(idOf, run, sections);
      var blobs := GatherSections(run.blobs, snapshots, sections);
      var frames := ReadFrames(run.frames, PAGE);
      var metrics := ReadMetrics(run.metrics);
      var all := GatherFrames(run.blobs, frames, blobs, groups);
      if all.None? { return Err(BrokenRecording); }
      return Ok(Bundle(run.header, scenario, run.inputs, records, snapshots, all.value, frames, Some(metrics)));
    }
  }

  // The sections its snapshots refer to that are stored.
  function SectionsOf(run: Run, sections: seq<byte> -> seq<string>): set<string> { SectionIds(run.snapshots, sections) * run.blobs.Keys }

  function Latest(versions: seq<Option<Scenario>>): Option<Scenario> {
    if versions == [] then None
    else if versions[|versions| - 1].Some? then versions[|versions| - 1]
    else Latest(versions[..|versions| - 1])
  }

  function ScenarioOf(scenarios: map<string, seq<Option<Scenario>>>, h: Header): Option<Scenario> {
    if h.scenarioId.None? then None
    else
      var versions := VersionsOf(scenarios, h.scenarioId.value);
      if h.scenarioVersion.None? then Latest(versions)
      else if 1 <= h.scenarioVersion.value <= |versions| then versions[h.scenarioVersion.value - 1]
      else None
  }

  // The orders the store keeps: of the records, of the series of metrics, of the frames of each agent.
  ghost predicate Kept(run: Run) {
    && Ordered(run.records)
    && Ascending(MetricLess(), MetricKey(), run.metrics)
    && forall a :: InOrder(OfAgent(run.frames, a))
  }

  lemma KeptParts(run: Run)
    requires Kept(run)
    ensures Ordered(run.records) && Ascending(MetricLess(), MetricKey(), run.metrics) && forall a :: InOrder(OfAgent(run.frames, a))
  {
    hide Ordered, Ascending, InOrder, OfAgent;
  }

  lemma SameSections(idOf: seq<byte> -> string, run: Run, sections: seq<byte> -> seq<string>)
    ensures SectionIds(Sort(Listed(idOf), run.snapshots), sections) * run.blobs.Keys == SectionsOf(run, sections)
  {
    ListedTotal(idOf);
    SortedSameElements(Listed(idOf), run.snapshots);
    hide Sort, Listed, TotalOrder;
  }

  datatype Series = Series(source: string, name: string, tick: nat)

  function MetricKey(): Metric -> Series { (m: Metric) => Series(m.source, m.name, m.tick) }

  predicate SeriesLess(a: Series, b: Series) {
    || (a.source != b.source && LexLe(a.source, b.source))
    || (a.source == b.source && a.name != b.name && LexLe(a.name, b.name))
    || (a.source == b.source && a.name == b.name && a.tick < b.tick)
  }

  function MetricLess(): (Series, Series) -> bool { SeriesLess }

  method ReadRecords(records: seq<TraceRecord>) returns (out: seq<TraceRecord>)
    requires Ordered(records)
    ensures out == records
  {
    OrderedAscends(records);
    FilterAll(IsBehind(IntLess(), SeqKey(), Some(-1)), records);
    assert records[0..] == records;
    out := ReadAll(IntLess(), SeqKey(), records, Some(-1), PAGE);
  }

  method ReadMetrics(metrics: seq<Metric>) returns (out: seq<Metric>)
    requires Ascending(MetricLess(), MetricKey(), metrics)
    ensures out == metrics
  {
    assert Irreflexive(MetricLess());
    FromTheStart(MetricLess(), MetricKey(), metrics);
    hide Behind, BehindIsTail, Ascending, Irreflexive;
    out := ReadAll(MetricLess(), MetricKey(), metrics, None, PAGE * 10);
  }

  // A run made and changed is one more; taken away again, nothing is left.
  lemma OneMore(before: map<string, Run>, mid: map<string, Run>, after: map<string, Run>, id: string, empty: Run, run: Run)
    requires id !in before && mid == before[id := empty] && Only(mid, after, id, run)
    ensures id in after && after == before[id := run] && after - {id} == before
  {
  }

  // ---- what a bundle must be, checked ---------------------------------------------------------------------------------------------------------------

  method CheckRecords(rs: seq<TraceRecord>, run: string, shape: TraceRecord -> bool) returns (problem: Option<WriteError>)
    ensures problem == RecordsProblem(rs, run, shape)
  {
    hide RecordId, NumbersRise, TimesRise;
    for k := 0 to |rs|
      invariant forall j :: 0 <= j < k ==> shape(rs[j]) && rs[j].runId == run && rs[j].id == RecordId(run, rs[j].seqNo)
    {
      if !shape(rs[k]) || rs[k].runId != run || rs[k].id != RecordId(run, rs[k].seqNo) { assert rs[k] in rs; return Some(CorruptRun); }
    }
    var sorted := Sort(BySeq, rs);
    assert TotalOrder(BySeq);
    SortIsSorted(BySeq, rs);
    hide Sort, TotalOrder, SortedBy, BySeq;
    var different := NumbersDiffer(sorted);
    if !different { return Some(CorruptRun); }
    var back := TimeGoesOn(sorted);
    return if back then None else Some(TimeGoesBack);
  }

  method NumbersDiffer(sorted: seq<TraceRecord>) returns (r: bool)
    requires SortedBy(BySeq, sorted)
    ensures r <==> NumbersRise(sorted)
  {
    for k := 0 to |sorted|
      invariant forall i, j :: 0 <= i < j < k ==> sorted[i].seqNo < sorted[j].seqNo
    {
      if k > 0 && sorted[k].seqNo == sorted[k - 1].seqNo { return false; }
      assert k > 0 ==> BySeq(sorted[k - 1], sorted[k]);
    }
    return true;
  }

  method TimeGoesOn(sorted: seq<TraceRecord>) returns (r: bool)
    ensures r <==> TimesRise(sorted)
  {
    for k := 0 to |sorted|
      invariant forall i, j :: 0 <= i < j < k ==> sorted[i].simTime <= sorted[j].simTime
    {
      if k > 0 && sorted[k].simTime < sorted[k - 1].simTime { return false; }
    }
    return true;
  }

  method CheckRecording(b: Bundle, shapes: Shapes, sections: seq<byte> -> seq<string>, groups: seq<byte> -> Option<seq<string>>)
    returns (fine: bool)
    ensures fine <==> RecordingProper(b, shapes, sections, groups)
  {
    hide BlobsThere, FramesProper;
    for k := 0 to |b.blobs|
      invariant forall j :: 0 <= j < k ==> shapes.blob(b.blobs[j])
    {
      if !shapes.blob(b.blobs[k]) { assert b.blobs[k] in b.blobs; return false; }
    }
    for k := 0 to |b.snapshots|
      invariant forall j :: 0 <= j < k ==> shapes.snapshot(b.snapshots[j])
    {
      if !shapes.snapshot(b.snapshots[k]) { assert b.snapshots[k] in b.snapshots; return false; }
    }
    for k := 0 to |b.frames|
      invariant forall j :: 0 <= j < k ==> shapes.frame(b.frames[j])
    {
      if !shapes.frame(b.frames[k]) { assert b.frames[k] in b.frames; return false; }
    }
    fine := BlobsFine(b, sections, groups);
    if !fine { return; }
    fine := FramesFine(b.frames);
  }

  method BlobsFine(b: Bundle, sections: seq<byte> -> seq<string>, groups: seq<byte> -> Option<seq<string>>) returns (fine: bool)
    ensures fine <==> BlobsThere(b, sections, groups)
  {
    var blobs := BlobMap(b.blobs);
    BlobMapHas(b.blobs);
    hide BlobMap, Ids;
    for k := 0 to |b.snapshots|
      invariant SectionIds(b.snapshots[..k], sections) <= blobs.Keys
    {
      OneSnapshotMore(b.snapshots, k, sections);
      if !(SetOf(sections(b.snapshots[k].bytes)) <= blobs.Keys) {
        assert SetOf(sections(b.snapshots[k].bytes)) <= SectionIds(b.snapshots, sections);
        return false;
      }
    }
    assert b.snapshots[..|b.snapshots|] == b.snapshots;
    hide FrameThere;
    for k := 0 to |b.frames|
      invariant forall j :: 0 <= j < k ==> FrameThere(b.frames[j], blobs, groups)
    {
      if !FrameThere(b.frames[k], blobs, groups) { assert b.frames[k] in b.frames; return false; }
    }
    return true;
  }

  method FramesFine(fs: seq<Frame>) returns (fine: bool)
    ensures fine <==> FramesProper(fs)
  {
    if |fs| > PAGE { return false; }
    FramesTotal();
    SortIsSorted(ByFrame, fs);
    var sorted := Sort(ByFrame, fs);
    hide Sort, TotalOrder, ByFrame;
    for k := 0 to |sorted|
      invariant FramesRise(sorted[..k])
    {
      if k > 0 && sorted[k].agentId == sorted[k - 1].agentId && (sorted[k].seqNo <= sorted[k - 1].seqNo || sorted[k].tick < sorted[k - 1].tick) {
        return false;
      }
      RisesOn(sorted, k);
    }
    assert sorted[..|sorted|] == sorted;
    return true;
  }

  // The frames of an agent stand together.
  lemma RisesOn(fs: seq<Frame>, k: nat)
    requires SortedBy(ByFrame, fs) && k < |fs| && FramesRise(fs[..k])
    requires k > 0 && fs[k].agentId == fs[k - 1].agentId ==> fs[k - 1].seqNo < fs[k].seqNo && fs[k - 1].tick <= fs[k].tick
    ensures FramesRise(fs[..k + 1])
  {
    hide LexLe;
    forall i | 0 <= i < k && fs[i].agentId == fs[k].agentId ensures fs[i].seqNo < fs[k].seqNo && fs[i].tick <= fs[k].tick {
      if i < k - 1 {
        assert ByFrame(fs[i], fs[k - 1]) && ByFrame(fs[k - 1], fs[k]);
        LexFacts(fs[i].agentId, fs[k - 1].agentId, "");
        assert fs[..k][i] == fs[i] && fs[..k][k - 1] == fs[k - 1];
      }
    }
    var a, b := fs[..k], fs[..k + 1];
    forall i, j | 0 <= i < j < |b| && b[i].agentId == b[j].agentId ensures b[i].seqNo < b[j].seqNo && b[i].tick <= b[j].tick {
      if j < k { assert a[i] == b[i] && a[j] == b[j]; }
    }
  }
}
