// A table of each agent's planning queries, kept up to date with the records of the run
// (apps/lab/src/panels/plan-queries.ts).
module PlanQueries {
  import opened Wrappers
  import opened Trace
  import opened Sorting

  datatype Status = Running | Found | NotFound | BudgetExceeded | Interrupted

  datatype Restart = Restart(reason: string, spent: real, interrupted: bool, simTime: real)

  datatype Leg = Leg(index: real, count: real, last: bool, tick: real)

  // What a `plan` record says of its query.
  datatype Plan = Plan(algorithm: string, submittedTick: Option<real>, completedTick: Option<real>, expansions: Option<real>,
                       waypoints: Option<seq<(real, real)>>, strategy: Option<Value>)

  datatype Row = Row(queryId: string, agentId: string, firstSeq: nat, status: Status, plan: Option<Plan>,
                     restarts: seq<Restart>, interruptions: nat, legs: seq<Leg>)

  // ---- reading a payload ---------------------------------------------------------------------------------------------------------

  function Field(v: Value, key: string): Option<Value> {
    if v.Obj? && key in v.fields then Some(v.fields[key]) else None
  }

  function Text(v: Option<Value>): Option<string> { if v.Some? && v.value.Str? then Some(v.value.s) else None }

  function Number(v: Option<Value>): Option<real> { if v.Some? && v.value.Num? then Some(v.value.n) else None }

  predicate IsTrue(v: Option<Value>) { v == Some(Bool(true)) }

  predicate IsPoint(v: Value) { v.Arr? && |v.items| >= 2 && v.items[0].Num? && v.items[1].Num? }

  function PointsIn(vs: seq<Value>): seq<(real, real)> {
    if vs == [] then []
    else (if IsPoint(vs[0]) then [(vs[0].items[0].n, vs[0].items[1].n)] else []) + PointsIn(vs[1..])
  }

  function Points(v: Option<Value>): Option<seq<(real, real)>> {
    if v.Some? && v.value.Arr? then Some(PointsIn(v.value.items)) else None
  }

  datatype Op = RestartOp | PlanOp | LegOp

  datatype Touch = Touch(agentId: string, queryId: string, op: Op)

  // The query a record is about, and how it changes it.
  function TouchOf(r: TraceRecord): Option<Touch> {
    var queryId, op := Text(Field(r.payload, "queryId")), Text(Field(r.payload, "op"));
    if queryId.None? || r.agentId.None? then None
    else if r.kind == "compute" && op == Some("restart") then Some(Touch(r.agentId.value, queryId.value, RestartOp))
    else if r.kind == "compute" && op == Some("plan") then Some(Touch(r.agentId.value, queryId.value, PlanOp))
    else if r.kind == "action" && op == Some("leg") then Some(Touch(r.agentId.value, queryId.value, LegOp))
    else None
  }

  function RestartOf(r: TraceRecord): Restart {
    Restart(Text(Field(r.payload, "reason")).GetOr("?"), Number(Field(r.payload, "spent")).GetOr(0.0),
            IsTrue(Field(r.payload, "interrupted")), r.simTime)
  }

  function LegOf(r: TraceRecord): Leg {
    Leg(Number(Field(r.payload, "index")).GetOr(0.0), Number(Field(r.payload, "count")).GetOr(0.0),
        IsTrue(Field(r.payload, "last")), Number(Field(r.payload, "tick")).GetOr(0.0))
  }

  // `json` is how a value that is not text is written out.
  function PlanOf(json: Value -> string, r: TraceRecord): Plan {
    var a, s := Field(r.payload, "algorithm"), Field(r.payload, "strategy");
    Plan(if Text(a).Some? then Text(a).value else json(if a.None? || a.value.Null? then Str("?") else a.value),
         Number(Field(r.payload, "submittedTick")), Number(Field(r.payload, "completedTick")),
         Number(Field(r.payload, "expansionsCharged")), Points(Field(r.payload, "waypoints")),
         if s.Some? && Text(Field(s.value, "id")).Some? then s else None)
  }

  // How a completed plan's status is told; without one of the three outcomes it follows the interruptions so far.
  function Outcome(r: TraceRecord, interruptions: nat): Status {
    var s := Text(Field(r.payload, "status"));
    if s == Some("found") then Found
    else if s == Some("not_found") then NotFound
    else if s == Some("budget_exceeded") then BudgetExceeded
    else if interruptions > 0 then Interrupted
    else Running
  }

  // ---- one record at a time --------------------------------------------------------------------------------------------------------

  function Fresh(r: TraceRecord, t: Touch): Row { Row(t.queryId, t.agentId, r.seqNo, Running, None, [], 0, []) }

  function Applied(json: Value -> string, row: Row, r: TraceRecord, op: Op): Row {
    match op
    case RestartOp =>
      if RestartOf(r).interrupted then
        row.(restarts := row.restarts + [RestartOf(r)], interruptions := row.interruptions + 1, status := Interrupted)
      else row.(restarts := row.restarts + [RestartOf(r)])
    case PlanOp => row.(status := Outcome(r, row.interruptions), plan := Some(PlanOf(json, r)))
    case LegOp => row.(legs := row.legs + [LegOf(r)])
  }

  function Place(rows: seq<Row>, queryId: string): (k: nat)
    ensures k <= |rows| && (k < |rows| ==> rows[k].queryId == queryId)
    ensures forall j :: 0 <= j < k ==> rows[j].queryId != queryId
  {
    if rows == [] || rows[0].queryId == queryId then 0 else Place(rows[1..], queryId) + 1
  }

  function RowsOf(table: map<string, seq<Row>>, agentId: string): seq<Row> {
    if agentId in table then table[agentId] else []
  }

  // The rows of the touched agent after a record; a query seen first gets a row at the end.
  function Updated(json: Value -> string, rows: seq<Row>, r: TraceRecord, t: Touch): seq<Row> {
    var k := Place(rows, t.queryId);
    if k < |rows| then rows[k := Applied(json, rows[k], r, t.op)] else rows + [Applied(json, Fresh(r, t), r, t.op)]
  }

  function After(json: Value -> string, table: map<string, seq<Row>>, r: TraceRecord): map<string, seq<Row>> {
    match TouchOf(r)
    case None => table
    case Some(t) => table[t.agentId := Updated(json, RowsOf(table, t.agentId), r, t)]
  }

  // The full rescan.
  function Folded(json: Value -> string, log: seq<TraceRecord>): map<string, seq<Row>> {
    if log == [] then map[] else After(json, Folded(json, log[..|log| - 1]), log[|log| - 1])
  }

  // ---- what a row says ---------------------------------------------------------------------------------------------------------------

  predicate About(r: TraceRecord, agentId: string, queryId: string) {
    TouchOf(r).Some? && TouchOf(r).value.agentId == agentId && TouchOf(r).value.queryId == queryId
  }

  // The records of one query.
  function NotesOf(log: seq<TraceRecord>, agentId: string, queryId: string): (notes: seq<TraceRecord>)
    ensures forall n :: n in notes <==> n in log && About(n, agentId, queryId)
  {
    if log == [] then []
    else
      var r := log[|log| - 1];
      NotesOf(log[..|log| - 1], agentId, queryId) + if About(r, agentId, queryId) then [r] else []
  }

  predicate Has(r: TraceRecord, op: Op) { TouchOf(r).Some? && TouchOf(r).value.op == op }

  predicate Interrupts(r: TraceRecord) { Has(r, RestartOp) && RestartOf(r).interrupted }

  function RestartsIn(notes: seq<TraceRecord>): seq<Restart> {
    if notes == [] then []
    else RestartsIn(notes[..|notes| - 1]) + if Has(notes[|notes| - 1], RestartOp) then [RestartOf(notes[|notes| - 1])] else []
  }

  function LegsIn(notes: seq<TraceRecord>): seq<Leg> {
    if notes == [] then []
    else LegsIn(notes[..|notes| - 1]) + if Has(notes[|notes| - 1], LegOp) then [LegOf(notes[|notes| - 1])] else []
  }

  function Interruptions(notes: seq<TraceRecord>): nat {
    if notes == [] then 0
    else Interruptions(notes[..|notes| - 1]) + if Interrupts(notes[|notes| - 1]) then 1 else 0
  }

  predicate Decides(r: TraceRecord) { Has(r, PlanOp) || Interrupts(r) }

  predicate IsPlan(r: TraceRecord) { Has(r, PlanOp) }

  // Where the last record that satisfies `p` is; below zero when none does.
  function Last(notes: seq<TraceRecord>, p: TraceRecord -> bool): (k: int)
    ensures -1 <= k < |notes|
    ensures k >= 0 ==> p(notes[k])
    ensures forall j :: k < j < |notes| ==> !p(notes[j])
  {
    if notes == [] then -1
    else if p(notes[|notes| - 1]) then |notes| - 1
    else Last(notes[..|notes| - 1], p)
  }

  // A query has the status of the last record that decides one, and what its last plan says.
  function StatusIn(notes: seq<TraceRecord>): Status {
    var k := Last(notes, Decides);
    if k < 0 then Running
    else if Interrupts(notes[k]) then Interrupted
    else Outcome(notes[k], Interruptions(notes[..k]))
  }

  function PlanIn(json: Value -> string, notes: seq<TraceRecord>): Option<Plan> {
    var k := Last(notes, IsPlan);
    if k < 0 then None else Some(PlanOf(json, notes[k]))
  }

  ghost predicate Describes(json: Value -> string, row: Row, notes: seq<TraceRecord>) {
    && notes != []
    && row.firstSeq == notes[0].seqNo
    && row.restarts == RestartsIn(notes)
    && row.legs == LegsIn(notes)
    && row.interruptions == Interruptions(notes)
    && row.status == StatusIn(notes)
    && row.plan == PlanIn(json, notes)
  }

  lemma DescribesFresh(json: Value -> string, r: TraceRecord, t: Touch)
    requires TouchOf(r) == Some(t)
    ensures Describes(json, Applied(json, Fresh(r, t), r, t.op), [r])
  {
    hide RestartOf, LegOf, PlanOf, Outcome, TouchOf;
    assert [r][..|[r]| - 1] == [] && [r][..0] == [];
    LastMore([], r, Decides);
    LastMore([], r, IsPlan);
    assert [] + [r] == [r];
    assert RestartsIn([r]) == if t.op == RestartOp then [RestartOf(r)] else [];
    assert LegsIn([r]) == if t.op == LegOp then [LegOf(r)] else [];
    var row := Applied(json, Fresh(r, t), r, t.op);
    assert row.restarts == RestartsIn([r]);
    assert row.legs == LegsIn([r]);
    assert row.interruptions == Interruptions([r]);
    assert row.status == StatusIn([r]);
    assert row.plan == PlanIn(json, [r]);
  }

  lemma LastMore(notes: seq<TraceRecord>, r: TraceRecord, p: TraceRecord -> bool)
    ensures Last(notes + [r], p) == if p(r) then |notes| else Last(notes, p)
  {
    assert (notes + [r])[..|notes|] == notes;
  }

  lemma DescribesMore(json: Value -> string, row: Row, notes: seq<TraceRecord>, r: TraceRecord, op: Op)
    requires Describes(json, row, notes) && Has(r, op)
    ensures Describes(json, Applied(json, row, r, op), notes + [r])
  {
    hide RestartOf, LegOf, PlanOf, Outcome, TouchOf, Last;
    var more := notes + [r];
    assert more[..|more| - 1] == notes && more[0] == notes[0] && more[|more| - 1] == r;
    LastMore(notes, r, Decides);
    LastMore(notes, r, IsPlan);
    var k := Last(notes, Decides);
    assert k >= 0 ==> more[k] == notes[k] && more[..k] == notes[..k];
    assert more[..|notes|] == notes;
  }

  // A log of one run: its sequence numbers go up.
  ghost predicate SeqOrdered(log: seq<TraceRecord>) {
    forall i, j :: 0 <= i < j < |log| ==> log[i].seqNo < log[j].seqNo
  }

  ghost predicate Started(rows: seq<Row>, below: int) {
    && (forall i, j :: 0 <= i < j < |rows| ==> rows[i].firstSeq < rows[j].firstSeq && rows[i].queryId != rows[j].queryId)
    && (forall i :: 0 <= i < |rows| ==> rows[i].firstSeq <= below)
  }

  ghost predicate Tells(json: Value -> string, rows: seq<Row>, log: seq<TraceRecord>, agentId: string) {
    && (forall i :: 0 <= i < |rows| ==>
          rows[i].agentId == agentId && Describes(json, rows[i], NotesOf(log, agentId, rows[i].queryId)))
    && (forall q :: NotesOf(log, agentId, q) != [] ==> Place(rows, q) < |rows|)
  }

  function LastSeq(log: seq<TraceRecord>): int { if log == [] then -1 else log[|log| - 1].seqNo }

  // The table says of every query just what its records say: one row a query, in the order they started; its restarts and
  // legs in order, its status and plan from the last records that decide them.
  lemma {:induction false} TableTells(json: Value -> string, log: seq<TraceRecord>, agentId: string)
    requires SeqOrdered(log)
    ensures Started(RowsOf(Folded(json, log), agentId), LastSeq(log))
    ensures Tells(json, RowsOf(Folded(json, log), agentId), log, agentId)
  {
    hide Describes, TouchOf, Applied, Started, Tells, SeqOrdered, NotesOf;
    if log == [] {
      NothingTold(json, log, agentId);
    } else {
      var before, r := log[..|log| - 1], log[|log| - 1];
      assert SeqOrdered(before) && LastSeq(before) < r.seqNo by { OrderedBefore(log); }
      TableTells(json, before, agentId);
      var rows := RowsOf(Folded(json, before), agentId);
      if TouchOf(r).Some? && TouchOf(r).value.agentId == agentId {
        StartedMore(json, rows, LastSeq(before), r, TouchOf(r).value);
        TellsMore(json, rows, log, r, TouchOf(r).value);
      } else {
        StartedLater(rows, LastSeq(before), r.seqNo);
        TellsOthers(json, rows, log, agentId);
      }
    }
  }

  lemma OrderedBefore(log: seq<TraceRecord>)
    requires SeqOrdered(log) && log != []
    ensures SeqOrdered(log[..|log| - 1]) && LastSeq(log[..|log| - 1]) < log[|log| - 1].seqNo
  {
  }

  lemma NothingTold(json: Value -> string, log: seq<TraceRecord>, agentId: string)
    requires log == []
    ensures Started([], -1) && Tells(json, [], log, agentId)
  {
  }

  lemma StartedLater(rows: seq<Row>, below: int, above: int)
    requires Started(rows, below) && below < above
    ensures Started(rows, above)
  {
  }

  lemma StartedMore(json: Value -> string, rows: seq<Row>, below: int, r: TraceRecord, t: Touch)
    requires Started(rows, below) && below < r.seqNo
    ensures Started(Updated(json, rows, r, t), r.seqNo)
  {
    hide RestartOf, LegOf, PlanOf, Outcome;
    SameKeys(json, rows, r, t);
    SameSeqs(json, rows, r, t);
    hide Updated, Place;
  }

  lemma SameSeqs(json: Value -> string, rows: seq<Row>, r: TraceRecord, t: Touch)
    ensures var rows' := Updated(json, rows, r, t);
      && |rows'| == (if Place(rows, t.queryId) < |rows| then |rows| else |rows| + 1)
      && (forall i :: 0 <= i < |rows| ==> rows'[i].firstSeq == rows[i].firstSeq)
      && (Place(rows, t.queryId) == |rows| ==> rows'[|rows|].firstSeq == r.seqNo)
  {
    hide RestartOf, LegOf, PlanOf, Outcome;
  }

  lemma TellsOthers(json: Value -> string, rows: seq<Row>, log: seq<TraceRecord>, agentId: string)
    requires log != [] && Tells(json, rows, log[..|log| - 1], agentId)
    requires TouchOf(log[|log| - 1]).None? || TouchOf(log[|log| - 1]).value.agentId != agentId
    ensures Tells(json, rows, log, agentId)
  {
    hide Describes, TouchOf, Place;
    forall q ensures NotesOf(log, agentId, q) == NotesOf(log[..|log| - 1], agentId, q) {}
  }

  lemma TellsMore(json: Value -> string, rows: seq<Row>, log: seq<TraceRecord>, r: TraceRecord, t: Touch)
    requires log != [] && r == log[|log| - 1] && TouchOf(r) == Some(t)
    requires Tells(json, rows, log[..|log| - 1], t.agentId) && Started(rows, LastSeq(log[..|log| - 1]))
    ensures Tells(json, Updated(json, rows, r, t), log, t.agentId)
  {
    hide Describes, TouchOf, Applied, NotesOf, Place, Started;
    var before, rows' := log[..|log| - 1], Updated(json, rows, r, t);
    var k := Place(rows, t.queryId);
    forall q ensures NotesOf(log, t.agentId, q) == NotesOf(before, t.agentId, q) + if q == t.queryId then [r] else [] {
      NotesMore(log, t.agentId, q, t);
    }
    SameKeys(json, rows, r, t);
    forall i | 0 <= i < |rows'|
      ensures rows'[i].agentId == t.agentId && Describes(json, rows'[i], NotesOf(log, t.agentId, rows'[i].queryId))
    {
      if i != k {
        assert rows'[i] == rows[i];
        if rows[i].queryId == t.queryId { OnlyPlace(rows, LastSeq(before), t.queryId, i); }
        var notes := NotesOf(before, t.agentId, rows[i].queryId);
        assert notes + [] == notes;
      } else if k < |rows| {
        DescribesMore(json, rows[k], NotesOf(before, t.agentId, t.queryId), r, t.op);
      } else {
        DescribesFresh(json, r, t);
        assert rows'[i] == Applied(json, Fresh(r, t), r, t.op);
        assert NotesOf(before, t.agentId, t.queryId) == [];
        assert [] + [r] == [r];
      }
    }
    forall q | NotesOf(log, t.agentId, q) != [] ensures Place(rows', q) < |rows'| {
      if q == t.queryId {
        PlacedAt(rows', q, k);
      } else {
        assert rows'[Place(rows, q)].queryId == q;
        PlacedAt(rows', q, Place(rows, q));
      }
    }
  }

  lemma NotesMore(log: seq<TraceRecord>, agentId: string, q: string, t: Touch)
    requires log != [] && TouchOf(log[|log| - 1]) == Some(t) && t.agentId == agentId
    ensures NotesOf(log, agentId, q)
         == NotesOf(log[..|log| - 1], agentId, q) + if q == t.queryId then [log[|log| - 1]] else []
  {
    hide TouchOf;
  }

  lemma SameKeys(json: Value -> string, rows: seq<Row>, r: TraceRecord, t: Touch)
    ensures var rows' := Updated(json, rows, r, t);
      && |rows| <= |rows'| && Place(rows, t.queryId) < |rows'|
      && (forall i :: 0 <= i < |rows| ==> rows'[i].queryId == rows[i].queryId && rows'[i].agentId == rows[i].agentId)
      && rows'[Place(rows, t.queryId)].queryId == t.queryId
      && (Place(rows, t.queryId) == |rows| ==> rows'[|rows|].agentId == t.agentId)
  {
    hide RestartOf, LegOf, PlanOf, Outcome;
  }

  lemma OnlyPlace(rows: seq<Row>, below: int, q: string, i: nat)
    requires Started(rows, below) && i < |rows| && rows[i].queryId == q
    ensures Place(rows, q) == i
  {
  }

  lemma PlacedAt(rows: seq<Row>, q: string, k: nat)
    requires k < |rows| && rows[k].queryId == q
    ensures Place(rows, q) < |rows|
  {
  }

  // ---- the index -----------------------------------------------------------------------------------------------------------------------

  predicate BySeq(a: Row, b: Row) { a.firstSeq <= b.firstSeq }

  lemma {:induction false} SortOfSorted(rows: seq<Row>, below: int)
    requires Started(rows, below)
    ensures Sort(BySeq, rows) == rows
  {
    if rows != [] {
      assert Started(rows[1..], below);
      assert |rows| > 1 ==> BySeq(rows[0], rows[1]);
      hide Started;
      SortOfSorted(rows[1..], below);
      assert rows == [rows[0]] + rows[1..];
    }
  }

  // The agents touched by records.
  function Touched(records: seq<TraceRecord>): set<string> {
    set r | r in records && TouchOf(r).Some? :: TouchOf(r).value.agentId
  }

  // What records append to a table.
  lemma {:induction false} FoldOn(json: Value -> string, log: seq<TraceRecord>, n: nat, agentId: string)
    requires n <= |log| && agentId !in Touched(log[n..])
    ensures RowsOf(Folded(json, log), agentId) == RowsOf(Folded(json, log[..n]), agentId)
    decreases |log| - n
  {
    hide TouchOf, Updated;
    if n < |log| {
      var k := |log| - 1;
      assert log[k] in log[n..];
      forall r | r in log[..k][n..] ensures r in log[n..] {
        var i :| 0 <= i < |log[..k][n..]| && log[..k][n..][i] == r;
        assert log[n..][i] == r;
      }
      FoldOn(json, log[..k], n, agentId);
      assert log[..k][..n] == log[..n];
    } else {
      assert log[..n] == log;
    }
  }

  lemma {:induction false} TouchedHasRows(json: Value -> string, log: seq<TraceRecord>, n: nat, agentId: string)
    requires n <= |log| && agentId in Touched(log[n..])
    ensures RowsOf(Folded(json, log), agentId) != []
    decreases |log| - n
  {
    hide TouchOf, Updated;
    var k := |log| - 1;
    UpdatedHasRows(json, RowsOf(Folded(json, log[..k]), agentId), log[k]);
    if TouchOf(log[k]).None? || TouchOf(log[k]).value.agentId != agentId {
      var r :| r in log[n..] && TouchOf(r).Some? && TouchOf(r).value.agentId == agentId;
      var i :| 0 <= i < |log[n..]| && log[n..][i] == r;
      assert log[..k][n..][i] == r;
      TouchedHasRows(json, log[..k], n, agentId);
    }
  }

  // After a reset, what is returned does not name the agents that had rows and have none now: the records touch them no more.
  lemma ResetForgetsAgents(json: Value -> string, before: seq<TraceRecord>, records: seq<TraceRecord>, agentId: string)
    ensures RowsOf(Folded(json, before), agentId) != [] && RowsOf(Folded(json, records), agentId) == []
       <==> agentId in Touched(before) && agentId !in Touched(records)
  {
    RowsMeanTouched(json, before, agentId);
    RowsMeanTouched(json, records, agentId);
  }

  lemma RowsMeanTouched(json: Value -> string, log: seq<TraceRecord>, agentId: string)
    ensures RowsOf(Folded(json, log), agentId) != [] <==> agentId in Touched(log)
  {
    assert log[0..] == log;
    if agentId in Touched(log) {
      TouchedHasRows(json, log, 0, agentId);
    } else {
      FoldOn(json, log, 0, agentId);
      hide Touched;
      assert log[..0] == [];
    }
  }

  lemma UpdatedHasRows(json: Value -> string, rows: seq<Row>, r: TraceRecord)
    ensures TouchOf(r).Some? ==> Updated(json, rows, r, TouchOf(r).value) != []
  {
  }

  lemma NothingTouched(none: seq<TraceRecord>)
    requires none == []
    ensures Touched(none) == {}
  {
  }

  lemma TouchedMore(records: seq<TraceRecord>, r: TraceRecord)
    ensures Touched(records + [r]) == Touched(records) + if TouchOf(r).Some? then {TouchOf(r).value.agentId} else {}
  {
    hide TouchOf;
    var more := records + [r];
    forall x | x in more && TouchOf(x).Some?
      ensures TouchOf(x).value.agentId in Touched(records) || (x == r && TouchOf(r).Some?)
    {
      if x != r { assert x in records; }
    }
    forall x | x in records ensures x in more { var i :| 0 <= i < |records| && records[i] == x; assert more[i] == x; }
    assert more[|records|] == r;
  }

  datatype Handed = Handed(version: nat, rows: seq<Row>)

  lemma FoldedMore(json: Value -> string, before: seq<TraceRecord>, part: seq<TraceRecord>, r: TraceRecord)
    ensures Folded(json, before + (part + [r])) == After(json, Folded(json, before + part), r)
  {
    hide After;
    var all := before + (part + [r]);
    assert all[..|all| - 1] == before + part && all[|all| - 1] == r;
  }

  // What a part changes of the rows: only those of agents it touches, and they have some then.
  lemma PartChanges(json: Value -> string, before: seq<TraceRecord>, part: seq<TraceRecord>)
    ensures forall a :: a !in Touched(part) ==> RowsOf(Folded(json, before + part), a) == RowsOf(Folded(json, before), a)
    ensures forall a :: a in Touched(part) ==> RowsOf(Folded(json, before + part), a) != []
  {
    hide *;
    var all := before + part;
    assert all[..|before|] == before && all[|before|..] == part;
    forall a | a !in Touched(part) ensures RowsOf(Folded(json, all), a) == RowsOf(Folded(json, before), a) { FoldOn(json, all, |before|, a); }
    forall a | a in Touched(part) ensures RowsOf(Folded(json, all), a) != [] { TouchedHasRows(json, all, |before|, a); }
  }

  // ---- what is read of the lists handed in -----------------------------------------------------------------------------------------------

  // The first of the records beyond a sequence number.
  function FirstBeyond(records: seq<TraceRecord>, n: int): (k: nat)
    ensures k <= |records| && (forall j :: 0 <= j < k ==> records[j].seqNo <= n)
    ensures k < |records| ==> records[k].seqNo > n
  {
    if records == [] || records[0].seqNo > n then 0 else 1 + FirstBeyond(records[1..], n)
  }

  // Whether a list is of another run than was read, or ends before what was read of it.
  predicate StartsAnew(seen: seq<TraceRecord>, runId: Option<string>, records: seq<TraceRecord>) {
    records == [] || runId != Some(records[|records| - 1].runId) || LastSeq(records) < LastSeq(seen)
  }

  // The part of a list that is read, and all that was read after it.
  function NewPart(seen: seq<TraceRecord>, runId: Option<string>, records: seq<TraceRecord>): seq<TraceRecord> {
    if StartsAnew(seen, runId, records) then records else records[FirstBeyond(records, LastSeq(seen))..]
  }

  function SeenAfter(seen: seq<TraceRecord>, runId: Option<string>, records: seq<TraceRecord>): seq<TraceRecord> {
    (if StartsAnew(seen, runId, records) then [] else seen) + NewPart(seen, runId, records)
  }

  lemma BeyondIs(records: seq<TraceRecord>, n: int, k: nat)
    requires SeqOrdered(records) && k <= |records|
    requires k > 0 ==> records[k - 1].seqNo <= n
    requires k < |records| ==> records[k].seqNo > n
    ensures FirstBeyond(records, n) == k
  {
    var f := FirstBeyond(records, n);
  }

  lemma JoinedOrdered(seen: seq<TraceRecord>, records: seq<TraceRecord>)
    requires SeqOrdered(seen) && SeqOrdered(records)
    ensures var all := seen + records[FirstBeyond(records, LastSeq(seen))..];
      && SeqOrdered(all)
      && (records != [] && LastSeq(seen) <= LastSeq(records) ==> LastSeq(all) == LastSeq(records))
  {
    var k := FirstBeyond(records, LastSeq(seen));
    var all := seen + records[k..];
    JoinedEnd(seen, records, k);
    assert forall i :: 0 <= i < |seen| ==> seen[i].seqNo <= LastSeq(seen);
    hide LastSeq;
    forall i, j | 0 <= i < j < |all| ensures all[i].seqNo < all[j].seqNo {
      if i < |seen| <= j {
        assert all[i].seqNo <= LastSeq(seen);
        assert all[j] == records[k + (j - |seen|)] && records[k].seqNo <= all[j].seqNo;
      } else if j < |seen| {
        assert all[i] == seen[i] && all[j] == seen[j];
      } else {
        assert all[i] == records[k + (i - |seen|)] && all[j] == records[k + (j - |seen|)];
      }
    }
  }

  lemma JoinedEnd(seen: seq<TraceRecord>, records: seq<TraceRecord>, k: nat)
    requires SeqOrdered(records) && k == FirstBeyond(records, LastSeq(seen))
    ensures records != [] && LastSeq(seen) <= LastSeq(records) ==> LastSeq(seen + records[k..]) == LastSeq(records)
  {
    hide SeqOrdered;
    var all := seen + records[k..];
    assert k < |records| ==> all[|all| - 1] == records[|records| - 1];
    assert k == |records| ==> all == seen;
  }

  // A list that grows, or is cut at its front, as the windows of a log are: while the next one leaves no gap behind what was read, what is
  // read is one stretch of the log, from where reading began to the end of the last window. One that ends earlier is read afresh.
  lemma WindowsAreRead(log: seq<TraceRecord>, i: nat, j: nat, a: nat, b: nat, runId: Option<string>)
    requires SeqOrdered(log) && i <= j <= |log| && a < b <= |log| && a <= j
    requires runId == Some(log[b - 1].runId)
    ensures SeenAfter(log[i..j], runId, log[a..b]) == if i < j && b < j then log[a..b] else if i < j then log[i..b] else log[a..b]
  {
    StretchOf(log, i, j);
    StretchOf(log, a, b);
    if i < j {
      InOrder(log, j - 1, b - 1);
      if j <= b { ReadOn(log, i, j, a, b, runId); } else { SeenIs(log[i..j], runId, log[a..b]); }
    } else {
      SeenIs(log[i..j], runId, log[a..b]);
      assert log[a..b][0..] == log[a..b];
    }
  }

  lemma ReadOn(log: seq<TraceRecord>, i: nat, j: nat, a: nat, b: nat, runId: Option<string>)
    requires SeqOrdered(log) && i < j <= b <= |log| && a < b && a <= j && runId == Some(log[b - 1].runId)
    ensures SeenAfter(log[i..j], runId, log[a..b]) == log[i..b]
  {
    hide *;
    StretchOf(log, i, j);
    StretchOf(log, a, b);
    InOrder(log, j - 1, b - 1);
    StretchBeyond(log, a, b, j);
    Stretches(log, i, j, a, b);
    SeenIs(log[i..j], runId, log[a..b]);
  }

  lemma Stretches<T>(log: seq<T>, i: nat, j: nat, a: nat, b: nat)
    requires i < j <= b <= |log| && a < b && a <= j
    ensures log[a..b][j - a..] == log[j..b] && log[i..j] + log[j..b] == log[i..b] && log[a..b][|log[a..b]| - 1] == log[b - 1]
  {
  }

  lemma SeenIs(seen: seq<TraceRecord>, runId: Option<string>, records: seq<TraceRecord>)
    requires records != [] && runId == Some(records[|records| - 1].runId)
    ensures LastSeq(records) < LastSeq(seen) ==> SeenAfter(seen, runId, records) == records
    ensures LastSeq(seen) <= LastSeq(records) ==> SeenAfter(seen, runId, records) == seen + records[FirstBeyond(records, LastSeq(seen))..]
    ensures seen == [] ==> SeenAfter(seen, runId, records) == records[FirstBeyond(records, -1)..]
  {
    assert [] + records == records;
    assert records[FirstBeyond(records, -1)..] == [] + records[FirstBeyond(records, -1)..];
  }

  lemma StretchOf(log: seq<TraceRecord>, a: nat, b: nat)
    requires SeqOrdered(log) && a <= b <= |log|
    ensures SeqOrdered(log[a..b]) && LastSeq(log[a..b]) == (if a < b then log[b - 1].seqNo else -1)
    ensures FirstBeyond(log[a..b], -1) == 0
  {
  }

  lemma InOrder(log: seq<TraceRecord>, x: nat, y: nat)
    requires SeqOrdered(log) && x < |log| && y < |log|
    ensures log[x].seqNo <= log[y].seqNo <==> x <= y
  {
  }

  lemma StretchBeyond(log: seq<TraceRecord>, a: nat, b: nat, j: nat)
    requires SeqOrdered(log) && a <= j <= b <= |log| && 0 < j
    ensures FirstBeyond(log[a..b], log[j - 1].seqNo) == j - a
  {
    StretchOf(log, a, b);
    BeyondIs(log[a..b], log[j - 1].seqNo, j - a);
  }

  // The lists are the beginnings of one log each run: then what was read is the list handed in last, whatever came before it.
  lemma BeginningsAreRead(seen: seq<TraceRecord>, runId: Option<string>, log: seq<TraceRecord>, n: nat)
    requires SeqOrdered(log) && n <= |log| && (forall r :: r in log ==> r.runId == log[0].runId)
    requires runId.Some? && log != [] && runId.value == log[0].runId ==> seen <= log
    ensures SeenAfter(seen, runId, log[..n]) == log[..n]
  {
    var records := log[..n];
    assert [] + records == records;
    if !StartsAnew(seen, runId, records) {
      assert records[|records| - 1] == log[n - 1] && log[n - 1] in log && log[..n] == log[0..n];
      assert seen == log[0..|seen|];
      StretchOf(log, 0, |seen|);
      WindowsAreRead(log, 0, |seen|, 0, n, runId);
    }
  }

  // The agents whose rows change and that are not among those touched by what is read: just those a reset leaves without rows.
  lemma NotReturned(json: Value -> string, seen: seq<TraceRecord>, runId: Option<string>, records: seq<TraceRecord>, agentId: string)
    ensures RowsOf(Folded(json, SeenAfter(seen, runId, records)), agentId) != RowsOf(Folded(json, seen), agentId)
         && agentId !in Touched(NewPart(seen, runId, records))
       <==> StartsAnew(seen, runId, records) && agentId in Touched(seen) && agentId !in Touched(records)
  {
    ResetForgetsAgents(json, seen, records, agentId);
    PartChanges(json, seen, NewPart(seen, runId, records));
    RowsMeanTouched(json, records, agentId);
    assert [] + records == records;
    hide StartsAnew, Folded, RowsOf, Touched, FirstBeyond;
  }

  // What reading a list does to every agent's rows.
  lemma RowsAfter(json: Value -> string, seen: seq<TraceRecord>, runId: Option<string>, records: seq<TraceRecord>)
    ensures forall a :: a !in Touched(NewPart(seen, runId, records)) ==>
      || RowsOf(Folded(json, SeenAfter(seen, runId, records)), a) == RowsOf(Folded(json, seen), a)
      || (RowsOf(Folded(json, SeenAfter(seen, runId, records)), a) == [] && StartsAnew(seen, runId, records))
    ensures forall a :: a in Touched(NewPart(seen, runId, records)) ==> RowsOf(Folded(json, SeenAfter(seen, runId, records)), a) != []
    ensures forall a :: RowsOf(Folded(json, SeenAfter(seen, runId, records)), a) != RowsOf(Folded(json, seen), a)
                     && a !in Touched(NewPart(seen, runId, records))
                   <==> StartsAnew(seen, runId, records) && a in Touched(seen) && a !in Touched(records)
  {
    hide *;
    forall a
      ensures a !in Touched(NewPart(seen, runId, records)) ==>
        || RowsOf(Folded(json, SeenAfter(seen, runId, records)), a) == RowsOf(Folded(json, seen), a)
        || (RowsOf(Folded(json, SeenAfter(seen, runId, records)), a) == [] && StartsAnew(seen, runId, records))
      ensures a in Touched(NewPart(seen, runId, records)) ==> RowsOf(Folded(json, SeenAfter(seen, runId, records)), a) != []
    {
      RowsOfOne(json, seen, runId, records, a);
    }
    forall a
      ensures RowsOf(Folded(json, SeenAfter(seen, runId, records)), a) != RowsOf(Folded(json, seen), a)
           && a !in Touched(NewPart(seen, runId, records))
         <==> StartsAnew(seen, runId, records) && a in Touched(seen) && a !in Touched(records)
    {
      NotReturned(json, seen, runId, records, a);
    }
  }

  lemma RowsOfOne(json: Value -> string, seen: seq<TraceRecord>, runId: Option<string>, records: seq<TraceRecord>, a: string)
    ensures var part, rows := NewPart(seen, runId, records), RowsOf(Folded(json, SeenAfter(seen, runId, records)), a);
      && (a !in Touched(part) ==> rows == RowsOf(Folded(json, seen), a) || (rows == [] && StartsAnew(seen, runId, records)))
      && (a in Touched(part) ==> rows != [])
  {
    PartChanges(json, seen, NewPart(seen, runId, records));
    RowsMeanTouched(json, records, a);
    assert [] + records == records;
    hide StartsAnew, Folded, RowsOf, Touched, FirstBeyond;
  }

  // What is seen after a list, by cases.
  lemma SeenCases(seen: seq<TraceRecord>, runId: Option<string>, records: seq<TraceRecord>)
    ensures StartsAnew(seen, runId, records) ==> SeenAfter(seen, runId, records) == NewPart(seen, runId, records) == records
    ensures SeqOrdered(records) ==> [] + records[FirstBeyond(records, LastSeq([]))..] == records
    ensures !StartsAnew(seen, runId, records) ==>
      var part := records[FirstBeyond(records, LastSeq(seen))..];
      NewPart(seen, runId, records) == part && SeenAfter(seen, runId, records) == seen + part
  {
    hide SeqOrdered, StartsAnew;
    assert [] + records == records;
    assert FirstBeyond(records, -1) == 0;
  }

  lemma NothingCached()
    ensures CacheOk(map[], map[], map[])
  {
  }

  lemma NothingFolded(json: Value -> string)
    ensures Folded(json, []) == map[] && LastSeq([]) == -1 && SeqOrdered([])
  {
  }

  // Such an input: any list that touches an agent, and then the empty one. Nothing is returned, and the agent's rows are gone.
  lemma EmptyListForgets(json: Value -> string, seen: seq<TraceRecord>, runId: Option<string>, agentId: string)
    requires agentId in Touched(seen)
    ensures Touched(NewPart(seen, runId, [])) == {}
    ensures RowsOf(Folded(json, SeenAfter(seen, runId, [])), agentId) == [] != RowsOf(Folded(json, seen), agentId)
  {
    NothingTouched([]);
    NotReturned(json, seen, runId, [], agentId);
    RowsMeanTouched(json, [], agentId);
    hide Touched, RowsOf;
    assert SeenAfter(seen, runId, []) == [];
  }

  function Version(versions: map<string, nat>, agentId: string): nat { if agentId in versions then versions[agentId] else 0 }

  // What was handed out is what would be handed out now, or its version is past.
  ghost predicate CacheOk(cache: map<string, Handed>, versions: map<string, nat>, table: map<string, seq<Row>>) {
    forall a :: a in cache ==>
      && cache[a].version <= Version(versions, a)
      && (cache[a].version == Version(versions, a) ==> cache[a].rows == RowsOf(table, a))
  }

  // It stays so when the versions of the agents whose rows may have changed move.
  lemma CacheStays(cache: map<string, Handed>, versions: map<string, nat>, table: map<string, seq<Row>>, versions': map<string, nat>,
                   table': map<string, seq<Row>>, changed: set<string>)
    requires CacheOk(cache, versions, table)
    requires forall a :: Version(versions', a) == Version(versions, a) + if a in changed then 1 else 0
    requires forall a :: a !in changed ==> RowsOf(table', a) == RowsOf(table, a)
    ensures CacheOk(cache, versions', table')
  {
    hide RowsOf;
  }

  class PlanQueryIndex {
    const json: Value -> string
    var runId: Option<string>
    var lastSeq: int
    // Per agent its rows, in the order their queries came.
    var table: map<string, seq<Row>>
    var versions: map<string, nat>
    var cache: map<string, Handed>
    // What was read since the last reset.
    ghost var seen: seq<TraceRecord>

    ghost predicate Valid()
      reads this
    {
      && SeqOrdered(seen)
      && lastSeq == LastSeq(seen)
      && table == Folded(json, seen)
      && CacheOk(cache, versions, table)
    }

    constructor (json: Value -> string)
      ensures Valid() && seen == [] && runId == None && this.json == json
    {
      this.json, runId, lastSeq := json, None, -1;
      table, versions, cache, seen := map[], map[], map[], [];
    }

    // The row of a query is changed, or begun.
    method Apply(r: TraceRecord) returns (changed: bool)
      modifies this`table
      ensures table == After(json, old(table), r) && changed == TouchOf(r).Some?
    {
      var touch := TouchOf(r);
      if touch.None? { return false; }
      var rows := RowsOf(table, touch.value.agentId);
      var k := 0;
      while k < |rows| && rows[k].queryId != touch.value.queryId
        invariant k <= |rows| && forall j :: 0 <= j < k ==> rows[j].queryId != touch.value.queryId
      {
        k := k + 1;
      }
      assert k == Place(rows, touch.value.queryId);
      if k < |rows| {
        rows := rows[k := Applied(json, rows[k], r, touch.value.op)];
      } else {
        rows := rows + [Applied(json, Fresh(r, touch.value), r, touch.value.op)];
      }
      table := table[touch.value.agentId := rows];
      return true;
    }

    method Reset()
      modifies this`table, this`versions, this`cache, this`lastSeq
      ensures table == map[] && versions == map[] && cache == map[] && lastSeq == -1
    {
      table, versions, cache, lastSeq := map[], map[], map[], -1;
    }

    // The first of the records beyond the cursor, looked for from the end.
    method NewFrom(records: seq<TraceRecord>) returns (from: nat)
      requires SeqOrdered(records)
      ensures from == FirstBeyond(records, lastSeq)
    {
      from := |records|;
      while from > 0 && records[from - 1].seqNo > lastSeq
        invariant 0 <= from <= |records| && (from < |records| ==> records[from].seqNo > lastSeq)
      {
        from := from - 1;
      }
      BeyondIs(records, lastSeq, from);
    }

    // The records from there on are applied, to the rows of what was read before.
    method ReadFrom(records: seq<TraceRecord>, from: nat, ghost before: seq<TraceRecord>) returns (changed: set<string>)
      requires from <= |records| && table == Folded(json, before)
      modifies this`table
      ensures table == Folded(json, before + records[from..]) && changed == Touched(records[from..])
    {
      hide After, TouchOf, Touched, Folded;
      changed := {};
      NothingTouched(records[from..from]);
      assert before + records[from..from] == before;
      for k := from to |records|
        invariant table == Folded(json, before + records[from..k]) && changed == Touched(records[from..k])
      {
        var r := records[k];
        var did := Apply(r);
        if did { changed := changed + {TouchOf(r).value.agentId}; }
        assert records[from..k + 1] == records[from..k] + [r];
        FoldedMore(json, before, records[from..k], r);
        TouchedMore(records[from..k], r);
      }
      assert records[from..|records|] == records[from..];
    }

    method Bump(changed: set<string>)
      modifies this`versions
      ensures forall a :: Version(versions, a) == Version(old(versions), a) + if a in changed then 1 else 0
    {
      var todo := changed;
      while todo != {}
        invariant todo <= changed
        invariant forall a :: Version(versions, a) == Version(old(versions), a) + if a in changed - todo then 1 else 0
        decreases |todo|
      {
        var id :| id in todo;
        versions := versions[id := Version(versions, id) + 1];
        todo := todo - {id};
      }
    }

    // Reads on from what was read.
    method Continue(records: seq<TraceRecord>) returns (changed: set<string>)
      requires records != [] && SeqOrdered(records) && LastSeq(seen) <= LastSeq(records)
      requires SeqOrdered(seen) && table == Folded(json, seen) && lastSeq == LastSeq(seen) && CacheOk(cache, versions, table)
      modifies this`runId, this`lastSeq, this`table, this`versions, this`seen
      ensures runId == Some(records[|records| - 1].runId) && lastSeq == LastSeq(seen)
      ensures seen == old(seen) + records[FirstBeyond(records, LastSeq(old(seen)))..] && SeqOrdered(seen)
      ensures table == Folded(json, seen) && CacheOk(cache, versions, table)
      ensures changed == Touched(records[FirstBeyond(records, LastSeq(old(seen)))..])
      ensures forall a :: a !in changed ==> RowsOf(table, a) == RowsOf(old(table), a)
      ensures forall a :: a in changed ==> RowsOf(table, a) != []
    {
      JoinedOrdered(seen, records);
      assert LastSeq(records) == records[|records| - 1].seqNo;
      hide Folded, RowsOf, SeqOrdered, Touched, FirstBeyond, LastSeq;
      var last := records[|records| - 1];
      runId := Some(last.runId);
      changed := ReadOn(records);
      lastSeq := last.seqNo;
      hide CacheOk, Version;
      Bump(changed);
      CacheStays(cache, old(versions), old(table), versions, table, changed);
    }

    // What is beyond the cursor is read, and changes only rows of the agents returned.
    method ReadOn(records: seq<TraceRecord>) returns (changed: set<string>)
      requires SeqOrdered(records) && table == Folded(json, seen) && lastSeq == LastSeq(seen)
      modifies this`table, this`seen
      ensures seen == old(seen) + records[FirstBeyond(records, LastSeq(old(seen)))..] && table == Folded(json, seen)
      ensures changed == Touched(records[FirstBeyond(records, LastSeq(old(seen)))..])
      ensures forall a :: a !in changed ==> RowsOf(table, a) == RowsOf(old(table), a)
      ensures forall a :: a in changed ==> RowsOf(table, a) != []
    {
      hide *;
      var from := NewFrom(records);
      changed := ReadFrom(records, from, seen);
      PartChanges(json, seen, records[from..]);
      seen := seen + records[from..];
    }

    // After it the index is what a rescan of all that was read gives; the agents it returns are those the part just read touches, and
    // cover every agent whose rows are not as they were, but for those that lost all of them to a reset.
    method Ingest(records: seq<TraceRecord>) returns (changed: set<string>)
      requires Valid() && SeqOrdered(records)
      modifies this`runId, this`lastSeq, this`table, this`versions, this`cache, this`seen
      ensures Valid() && seen == SeenAfter(old(seen), old(runId), records)
      ensures runId == if records == [] then old(runId) else Some(records[|records| - 1].runId)
      ensures table == Folded(json, seen)
      ensures changed == Touched(NewPart(old(seen), old(runId), records))
      ensures forall a :: a !in changed ==>
        RowsOf(table, a) == RowsOf(old(table), a) || (RowsOf(table, a) == [] && StartsAnew(old(seen), old(runId), records))
      ensures forall a :: a in changed ==> RowsOf(table, a) != []
      ensures forall a :: RowsOf(table, a) != RowsOf(old(table), a) && a !in changed <==>
        StartsAnew(old(seen), old(runId), records) && a in Touched(old(seen)) && a !in Touched(records)
    {
      RowsAfter(json, seen, runId, records);
      SeenCases(seen, runId, records);
      assert StartsAnew(seen, runId, records)
        == (records == [] || runId != Some(records[|records| - 1].runId) || records[|records| - 1].seqNo < lastSeq);
      assert |records| > 0 ==> LastSeq(records) == records[|records| - 1].seqNo >= 0;
      NothingFolded(json);
      NothingCached();
      hide SeenAfter, NewPart, StartsAnew, Folded, RowsOf, SeqOrdered, Touched, FirstBeyond, LastSeq, CacheOk;
      changed := {};
      if records == [] {
        NothingTouched(records);
        if lastSeq >= 0 { Reset(); }
        seen := [];
        return;
      }
      var last := records[|records| - 1];
      if runId != Some(last.runId) || last.seqNo < lastSeq {
        Reset();
        seen := [];
      }
      changed := Continue(records);
    }

    // The queries of an agent in the order they started: what a rescan of what was read gives, from the cache or not.
    method Queries(agentId: string) returns (rows: seq<Row>)
      requires Valid()
      modifies this`cache
      ensures Valid()
      ensures rows == RowsOf(Folded(json, seen), agentId)
      ensures Started(rows, LastSeq(seen)) && Tells(json, rows, seen, agentId)
    {
      TableTells(json, seen, agentId);
      hide Tells, Folded, SeqOrdered, Started;
      var version := Version(versions, agentId);
      if agentId in cache && cache[agentId].version == version { return cache[agentId].rows; }
      SortOfSorted(RowsOf(table, agentId), LastSeq(seen));
      rows := Sort(BySeq, RowsOf(table, agentId));
      cache := cache[agentId := Handed(version, rows)];
    }
  }
}
