// A run exported as a file and a file imported as a run (packages/storage/src/run-bundle.ts).
module RunExchange {
  import opened Wrappers
  import opened Trace
  import opened Sorting
  import opened Paging
  import opened Base64
  import opened BeliefFrames
  import opened RunFiles
  import opened StoredLog
  import opened RunRenaming
  import opened RunBlobs
  import opened RunBundles

  datatype ExchangeError = NotRead(why: ReadError) | NotFile(wrong: FileError) | NotWritten(refused: WriteError)

  // What is read of a run: all it owns, and of its blobs those its snapshots and its frames refer to.
  ghost predicate ReadFrom(run: Run, b: Bundle, scenario: Option<Scenario>, idOf: seq<byte> -> string, sections: seq<byte> -> seq<string>,
                           groups: seq<byte> -> Option<seq<string>>) {
    var read := AllAgentsRead(run.frames, PAGE);
    && b == Bundle(run.header, scenario, run.inputs, run.records, Sort(Listed(idOf), run.snapshots), b.blobs, read, Some(run.metrics))
    && Gathered(b.blobs, run.blobs)
    && forall x :: x in Ids(b.blobs) <==> Comes(run.blobs, read, SectionsOf(run, sections), groups, |read|, x)
  }

  ghost predicate Readable(run: Run, sections: seq<byte> -> seq<string>, groups: seq<byte> -> Option<seq<string>>) {
    AllWhole(run.blobs, AllAgentsRead(run.frames, PAGE), SectionsOf(run, sections), groups)
  }

  method ExportRunJsonl(db: Database, id: string, c: Codec) returns (r: Result<string, ReadError>, ghost b: Bundle)
    requires id in db.runs ==> Kept(db.runs[id])
    ensures r.Ok? <==> id in db.runs && Readable(db.runs[id], db.sections, db.groups)
    ensures r.Ok? ==> r.value == FileOf(c, b)
    ensures r.Ok? ==> ReadFrom(db.runs[id], b, ScenarioOf(db.scenarios, db.runs[id].header), db.idOf, db.sections, db.groups)
  {
    hide Kept, AllWhole, Comes, Ids, Gathered, AllAgentsRead, SectionsOf, Sort, Listed, FileOf, ScenarioOf;
    b := Bundle(Header("", None, None, None, Null), None, [], [], [], [], [], None);
    var bundle := db.ReadRunBundle(id);
    if bundle.Err? { return Err(bundle.error), b; }
    b := bundle.value;
    var text := BundleToJsonl(c, bundle.value);
    return Ok(text), b;
  }

  method ImportRunJsonl(db: Database, c: Codec, text: string) returns (r: Result<string, ExchangeError>)
    requires db.Valid()
    modifies db
    ensures db.Valid() && db.writes >= old(db.writes)
    ensures BundleOf(c, text).Err? <==> r.Err? && r.error.NotFile?
    ensures BundleOf(c, text).Err? ==>
      r == Err(NotFile(BundleOf(c, text).error)) && db.runs == old(db.runs) && db.scenarios == old(db.scenarios)
    ensures r.Err? ==> db.runs == old(db.runs) && !r.error.NotRead?
    ensures BundleOf(c, text).Ok? ==>
      var b := BundleOf(c, text).value;
      && (r.Ok? ==> RunAdded(db, b, r.value, old(db.runs), old(db.scenarios)))
      && (db.Through(old(db.writes), db.writes) ==> (r.Ok? <==> db.Proper(b) && db.Taken(b, old(db.scenarios))))
  {
    hide BundleOf;
    var bundle := BundleFromJsonl(c, text);
    if bundle.Err? { return Err(NotFile(bundle.error)); }
    hide Imported, ScenariosAfter, VersionFor;
    var written := db.WriteRunBundle(bundle.value);
    if written.Err? { return Err(NotWritten(written.error)); }
    return Ok(written.value);
  }

  // One run more, the bundle's, under an ID no run had.
  ghost predicate RunAdded(db: Database, b: Bundle, id: string, runs: map<string, Run>, scenarios: map<string, seq<Option<Scenario>>>)
    reads db
  {
    && id !in runs
    && db.runs == runs[id := Imported(b, db.idOf, id, VersionFor(scenarios, b))]
    && db.scenarios == ScenariosAfter(scenarios, b)
  }

  lemma {:induction false} SortOrdered(rs: seq<TraceRecord>)
    requires Ordered(rs)
    ensures Sort(BySeq, rs) == rs
  {
    if rs != [] {
      assert Ordered(rs[1..]);
      assert |rs| > 1 ==> BySeq(rs[0], rs[1]);
      hide Ordered;
      SortOrdered(rs[1..]);
      assert rs == [rs[0]] + rs[1..];
    }
  }

  // What an imported copy of a run holds: its inputs and samples, and its records, renamed, all as they were.
  ghost predicate CopyOfRun(run: Run, copy: Run, id: string) {
    && copy.records == RenamedAll(run.records, run.header.runId, id)
    && copy.inputs == run.inputs
    && copy.header == run.header.(runId := id, importedFrom := Some(run.header.importedFrom.GetOr(run.header.runId)),
                                  scenarioVersion := copy.header.scenarioVersion)
  }

  lemma CopyIs(run: Run, b: Bundle, scenario: Option<Scenario>, idOf: seq<byte> -> string, sections: seq<byte> -> seq<string>,
               groups: seq<byte> -> Option<seq<string>>, known: seq<byte> -> string, id: string, version: Option<nat>)
    requires ReadFrom(run, b, scenario, idOf, sections, groups) && Ordered(run.records)
    ensures CopyOfRun(run, Imported(b, known, id, version), id)
    ensures WithMetrics(b) == b
  {
    SortOrdered(run.records);
    hide Sort, Distinct, BlobMap, Comes, Ids, Gathered, AllAgentsRead, Listed, RenamedAll, SectionsOf, Ordered;
  }

  // A run exported from one database and imported into another, or the same one. It is exported just when the blobs it reads are stored.
  // With a text of JSON that carries its lines, the file is refused just when it is past a limit or its header is none; and while no
  // write fails the run is added just when the bundle read of it is proper and taken. Then the new run is a copy of it.
  method ExportThenImport(a: Database, id: string, b: Database, c: Codec) returns (r: Result<string, ExchangeError>, ghost x: Bundle)
    requires b.Valid() && (id in a.runs ==> Kept(a.runs[id]))
    modifies b
    ensures b.Valid() && b.writes >= old(b.writes)
    ensures r.Err? && r.error.NotRead? <==> !(id in old(a.runs) && Readable(old(a.runs)[id], a.sections, a.groups))
    ensures id in old(a.runs) && Readable(old(a.runs)[id], a.sections, a.groups) && Faithful(c, FileLines(x)) ==>
      && (r.Err? && r.error.NotFile? <==> !c.isHeader(x.header) || !InLimits(c, x))
      && (b.Through(old(b.writes), b.writes) ==>
            (r.Ok? <==> c.isHeader(x.header) && InLimits(c, x) && b.Proper(x) && b.Taken(x, old(b.scenarios))))
      && (r.Ok? ==> RunAdded(b, x, r.value, old(b.runs), old(b.scenarios)) && CopyOfRun(old(a.runs)[id], b.runs[r.value], r.value))
    ensures r.Err? ==> b.runs == old(b.runs)
    ensures id in old(a.runs) && Readable(old(a.runs)[id], a.sections, a.groups) ==>
      ReadFrom(old(a.runs)[id], x, ScenarioOf(old(a.scenarios), old(a.runs)[id].header), a.idOf, a.sections, a.groups)
  {
    hide *;
    var text: Result<string, ReadError>;
    text, x := ExportRunJsonl(a, id, c);
    if text.Err? { return Err(NotRead(text.error)), x; }
    ghost var run, scenario := a.runs[id], ScenarioOf(a.scenarios, a.runs[id].header);
    ghost var runs, scenarios := b.runs, b.scenarios;
    r := ImportRunJsonl(b, c, text.value);
    if Faithful(c, FileLines(x)) {
      KeptParts(run);
      FileFits(c, x);
      CopyIs(run, x, scenario, a.idOf, a.sections, a.groups, b.idOf, if r.Ok? then r.value else "", VersionFor(scenarios, x));
      if r.Ok? { AddedIs(b, x, r.value, runs, scenarios); }
    }
  }

  lemma AddedIs(db: Database, b: Bundle, id: string, runs: map<string, Run>, scenarios: map<string, seq<Option<Scenario>>>)
    requires RunAdded(db, b, id, runs, scenarios)
    ensures id in db.runs && db.runs[id] == Imported(b, db.idOf, id, VersionFor(scenarios, b))
  {
    hide Imported;
  }

  lemma FileFits(c: Codec, b: Bundle)
    requires Faithful(c, FileLines(b))
    ensures BundleOf(c, FileOf(c, b)).Ok? <==> c.isHeader(b.header) && InLimits(c, b)
    ensures BundleOf(c, FileOf(c, b)).Ok? ==> BundleOf(c, FileOf(c, b)).value == WithMetrics(b)
  {
    FileRoundTrip(c, b);
    hide BundleOf, FileOf, BodyLines, WithMetrics, Short;
  }
}
