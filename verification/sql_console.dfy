// The SQL console's executor (packages/storage/src/sql-console.ts): one read-only statement, stepped in slices, with the guards
// of the connection off whenever another task has its turn.
module SqlConsoles {
  import opened Wrappers
  import opened SqlStatements
  import Decimal
  import Filters

  const DEFAULT_ROWS := 10000.0
  const MAX_ROWS := 100000.0
  const DEFAULT_TIMEOUT := 5000.0
  const MAX_TIMEOUT := 60000.0
  const SLICE := 20.0
  const MAX_CHARS := 100000
  const CELL_CHARS := 4096

  datatype Code = Empty | TooLong | MultipleStatements | NotReadOnly | Timeout | TooSlow | Cancelled | Busy | LimitInvalid | Engine(why: string)

  // A value as the engine returns it, and as the grid shows it.
  datatype Raw = RawNull | RawNumber(n: real) | RawText(s: string) | RawBlob(size: nat)

  datatype Cell = NullCell | NumberCell(n: real) | TextCell(s: string)

  predicate TooWide(v: Raw) { v.RawText? && |v.s| > CELL_CHARS }

  function ShownCell(v: Raw): Cell {
    match v
    case RawNull => NullCell
    case RawNumber(n) => NumberCell(n)
    case RawText(s) => TextCell(if |s| > CELL_CHARS then s[..CELL_CHARS] + "\U{2026}" else s)
    case RawBlob(size) => TextCell("<blob " + Decimal.Digits(size) + " bytes>")
  }

  function ShownRow(row: seq<Raw>): seq<Cell> { seq(|row|, k requires 0 <= k < |row| => ShownCell(row[k])) }

  function ShownRows(rows: seq<seq<Raw>>): seq<seq<Cell>> {
    seq(|rows|, k requires 0 <= k < |rows| => ShownRow(rows[k]))
  }

  predicate AnyCut(rows: seq<seq<Raw>>) { exists row :: row in rows && CutRow(row) }

  predicate CutRow(row: seq<Raw>) { exists v :: v in row && TooWide(v) }

  datatype Fault = Interrupted | Broken(why: string)

  // A statement the engine has prepared: whether it only reads, its columns and rows, and which steps of it throw.
  datatype Prepared = Prepared(readonly: bool, columns: seq<string>, rows: seq<seq<Raw>>, faults: nat -> Option<Fault>)

  datatype Limits = Limits(maxRows: nat, timeout: real)

  datatype SqlRows = SqlRows(rows: seq<seq<Cell>>, truncated: bool, cellsCut: bool)

  datatype SqlResult = SqlResult(columns: seq<string>, gathered: SqlRows, elapsed: real)

  function Least(a: nat, b: nat): nat { if a <= b then a else b }

  // All a statement gives within the limit.
  function Whole(p: Prepared, maxRows: nat): SqlRows {
    var rows := p.rows[..Least(maxRows, |p.rows|)];
    SqlRows(ShownRows(rows), |p.rows| > maxRows, AnyCut(rows))
  }

  // What is gathered between two slices.
  datatype Gathered = Gathered(result: SqlRows, finished: bool)

  ghost predicate GatherInv(g: Gathered, p: Prepared, maxRows: nat, position: nat) {
    && position <= |p.rows|
    && (g.finished ==> g.result == Whole(p, maxRows))
    && (!g.finished ==> position < maxRows && g.result == SqlRows(ShownRows(p.rows[..position]), false, AnyCut(p.rows[..position])))
  }

  lemma GatherMore(p: Prepared, position: nat)
    requires position < |p.rows|
    ensures ShownRows(p.rows[..position + 1]) == ShownRows(p.rows[..position]) + [ShownRow(p.rows[position])]
    ensures AnyCut(p.rows[..position + 1]) == (AnyCut(p.rows[..position]) || CutRow(p.rows[position]))
  {
    hide ShownRow, CutRow;
    assert p.rows[..position + 1] == p.rows[..position] + [p.rows[position]];
  }

  datatype Stepped = Row(row: seq<Raw>) | Done | Threw(fault: Fault)

  class SqlConsole {
    const engine: string -> Result<Prepared, Code>
    // The clock as it is read, and whether the job is cancelled as it is looked at.
    const clock: nat -> real
    const cancelled: nat -> bool
    // After these many readings the clock is past a span that began with another.
    ghost const past: (nat, real) -> nat
    var readings: nat
    var looks: nat
    var running: bool
    // The guards of the connection.
    var queryOnly: bool
    var authorizer: bool
    var handler: bool
    // The statement under way: the rows it gave, and its steps.
    var open: bool
    var position: nat
    var steps: nat

    predicate Guarded()
      reads this
    {
      queryOnly && authorizer && handler
    }

    predicate Unguarded()
      reads this
    {
      !queryOnly && !authorizer && !handler
    }

    // The clock goes past every span.
    ghost predicate Passes() {
      forall from: nat, span: real, k: nat :: k >= past(from, span) ==> clock(k) - clock(from) > span
    }

    ghost predicate Valid()
      reads this
    {
      Unguarded() && !open && Passes()
    }

    constructor (engine: string -> Result<Prepared, Code>, clock: nat -> real, cancelled: nat -> bool,
                 ghost past: (nat, real) -> nat)
      requires forall from: nat, span: real, k: nat :: k >= past(from, span) ==> clock(k) - clock(from) > span
      ensures Valid() && !running && this.engine == engine && this.clock == clock && this.cancelled == cancelled
    {
      this.engine, this.clock, this.cancelled, this.past := engine, clock, cancelled, past;
      readings, looks, running, queryOnly, authorizer, handler, open := 0, 0, false, false, false, false, false;
    }

    method Now() returns (t: real)
      modifies this`readings
      ensures t == clock(old(readings)) && readings == old(readings) + 1
    {
      t := clock(readings);
      readings := readings + 1;
    }

    method IsCancelled() returns (c: bool)
      modifies this`looks
      ensures c == cancelled(old(looks)) && looks == old(looks) + 1
    {
      c := cancelled(looks);
      looks := looks + 1;
    }

    method Guard() returns (sliceStart: real)
      modifies this`readings, this`queryOnly, this`authorizer, this`handler
      ensures Guarded() && readings == old(readings) + 1 && sliceStart == clock(old(readings))
    {
      sliceStart := Now();
      queryOnly := true;
      authorizer := true;
      handler := true;
    }

    method Unguard()
      modifies this`queryOnly, this`authorizer, this`handler
      ensures Unguarded()
    {
      handler := false;
      authorizer := false;
      queryOnly := false;
    }

    // Another task of the worker has its turn: none may see a guard.
    method YieldToQueue()
      requires Unguarded()
    {
    }

    // One step of the statement, which is only ever made under the guards.
    method Step(p: Prepared) returns (r: Stepped)
      requires open && Guarded() && position <= |p.rows|
      modifies this`position, this`steps
      ensures steps == old(steps) + 1
      ensures r.Threw? <==> p.faults(old(steps)).Some?
      ensures r.Row? ==> old(position) < |p.rows| && r.row == p.rows[old(position)] && position == old(position) + 1
      ensures !r.Row? ==> position == old(position)
      ensures r.Done? ==> position == |p.rows|
      ensures r.Threw? ==> p.faults(old(steps)) == Some(r.fault)
    {
      var fault := p.faults(steps);
      steps := steps + 1;
      if fault.Some? { return Threw(fault.value); }
      if position == |p.rows| { return Done; }
      position := position + 1;
      return Row(p.rows[position - 1]);
    }

    // Why a job may end without a result.
    ghost predicate Stopped(statement: string, limits: Limits, started: real, before: nat, looked: nat, code: Code)
      reads this`looks, this`readings, this`steps
    {
      || (engine(statement).Err? && code == engine(statement).error)
      || (engine(statement).Ok? && !engine(statement).value.readonly && code == NotReadOnly)
      || (engine(statement).Ok? && StepsStopped(engine(statement).value, limits, started, before, looked, code))
    }

    // Why its steps may: it was cancelled, the clock was past the timeout, or a step threw.
    ghost predicate StepsStopped(p: Prepared, limits: Limits, started: real, before: nat, looked: nat, code: Code)
      reads this`looks, this`readings, this`steps
    {
      || (code == Cancelled && exists k :: looked <= k < looks && cancelled(k))
      || (code == Timeout && exists k :: before <= k < readings && clock(k) - started > limits.timeout)
      || Faulted(p.faults, steps, code)
    }

    // One of the first steps throws, and gives this code.
    static ghost predicate Faulted(faults: nat -> Option<Fault>, steps: nat, code: Code) {
      exists k :: 0 <= k < steps && FaultGives(faults(k), code)
    }

    static predicate FaultGives(fault: Option<Fault>, code: Code) {
      fault.Some? && if fault.value.Interrupted? then code == TooSlow || code == Timeout else code == Engine(fault.value.why)
    }

    // One slice: steps until the slice is over, the statement has ended or the limit is reached.
    method Slice(p: Prepared, limits: Limits, started: real, g: Gathered) returns (next: Gathered, stop: Option<Code>)
      requires open && Unguarded() && limits.maxRows >= 1 && !g.finished && GatherInv(g, p, limits.maxRows, position)
      modifies this`readings, this`queryOnly, this`authorizer, this`handler, this`position, this`steps
      ensures open && Unguarded() && readings > old(readings) && steps >= old(steps)
      ensures stop.None? ==> GatherInv(next, p, limits.maxRows, position)
      ensures stop.Some? ==> Faulted(p.faults, steps, stop.value)
    {
      hide GatherInv, Whole, ShownRows, AnyCut;
      next := g;
      InsideRows(g, p, limits.maxRows, position);
      var sliceStart := Guard();
      var now := Now();
      while now - sliceStart < SLICE && !next.finished
        invariant open && Guarded() && readings > old(readings) && steps >= old(steps)
        invariant GatherInv(next, p, limits.maxRows, position) && position <= |p.rows|
        decreases |p.rows| - position, if next.finished then 0 else 1
      {
        InsideRows(next, p, limits.maxRows, position);
        var stepped := Step(p);
        match stepped {
          case Threw(fault) =>
            if fault.Broken? {
              stop := Some(Engine(fault.why));
            } else {
              var t := Now();
              stop := Some(if t - started > limits.timeout then Timeout else TooSlow);
            }
            assert FaultGives(p.faults(steps - 1), stop.value);
            Unguard();
            return;
          case Done =>
            EndedIsWhole(next, p, limits.maxRows);
            next := next.(finished := true);
          case Row(row) =>
            TakenRow(next, p, limits.maxRows, position - 1);
            next := next.(result := SqlRows(next.result.rows + [ShownRow(row)], false, next.result.cellsCut || CutRow(row)));
            if |next.result.rows| >= limits.maxRows {
              var more := Step(p);
              if more.Threw? {
                if more.fault.Broken? {
                  stop := Some(Engine(more.fault.why));
                } else {
                  var t := Now();
                  stop := Some(if t - started > limits.timeout then Timeout else TooSlow);
                }
                assert FaultGives(p.faults(steps - 1), stop.value);
                Unguard();
                return;
              }
              next := Gathered(next.result.(truncated := more.Row?), true);
            }
        }
        if !next.finished { now := Now(); }
      }
      Unguard();
      stop := None;
    }

    // What is looked at before a slice: the cancel, and the clock.
    method IsOver(limits: Limits, started: real) returns (stop: Option<Code>)
      modifies this`readings, this`looks
      ensures looks == old(looks) + 1 && readings >= old(readings)
      ensures stop.None? ==> readings == old(readings) + 1 && clock(old(readings)) - started <= limits.timeout
      ensures stop.Some? ==>
        || (stop.value == Cancelled && cancelled(old(looks)))
        || (stop.value == Timeout && readings == old(readings) + 1 && clock(old(readings)) - started > limits.timeout)
    {
      var c := IsCancelled();
      if c { return Some(Cancelled); }
      var now := Now();
      return if now - started > limits.timeout then Some(Timeout) else None;
    }

    lemma PastIsPast(from: nat, span: real, k: nat)
      requires Passes() && k >= past(from, span)
      ensures clock(k) - clock(from) > span
    {
    }

    // Steps a prepared statement slice by slice; between two slices the guards are off.
    method StepAll(p: Prepared, limits: Limits, started: real, ghost from: nat) returns (r: Result<SqlRows, Code>)
      requires open && Unguarded() && Passes() && limits.maxRows >= 1 && position == 0 && started == clock(from) && from < readings
      modifies this`readings, this`looks, this`queryOnly, this`authorizer, this`handler, this`position, this`steps
      ensures open && Unguarded() && readings >= old(readings) && looks >= old(looks)
      ensures r.Ok? ==> r.value == Whole(p, limits.maxRows)
      ensures r.Err? ==> StepsStopped(p, limits, started, from, old(looks), r.error)
    {
      hide Whole, GatherInv, Faulted, Passes;
      ghost var end := past(from, limits.timeout);
      var g := Gathered(SqlRows([], false, false), false);
      NothingGathered(p, limits.maxRows);
      while !g.finished
        invariant open && Unguarded() && readings >= old(readings) && looks >= old(looks)
        invariant GatherInv(g, p, limits.maxRows, position)
        decreases (if g.finished then 0 else 1), end - readings
      {
        var over := IsOver(limits, started);
        if over.Some? { return Err(over.value); }
        if readings > end { PastIsPast(from, limits.timeout, readings - 1); }
        var stop: Option<Code>;
        g, stop := Slice(p, limits, started, g);
        if stop.Some? { return Err(stop.value); }
        if !g.finished { YieldToQueue(); }
      }
      FinishedIsWhole(g, p, limits.maxRows, position);
      return Ok(g.result);
    }

    // The statement is prepared under the guards.
    method Prepare(statement: string) returns (prepared: Result<Prepared, Code>)
      modifies this`readings, this`queryOnly, this`authorizer, this`handler
      ensures Unguarded() && readings == old(readings) + 1 && prepared == engine(statement)
    {
      var _ := Guard();
      prepared := engine(statement);
      Unguard();
    }

    // Runs a statement. What it returns does not depend on how the slices fall: the statement's columns, its first rows up to the
    // limit, and whether there are more; and how long that took on the clock.
    method Execute(statement: string, limits: Limits) returns (r: Result<SqlResult, Code>)
      requires Valid() && limits.maxRows >= 1
      modifies this`readings, this`looks, this`queryOnly, this`authorizer, this`handler, this`open, this`position, this`steps
      ensures Valid()
      ensures r.Ok? ==> engine(statement).Ok? && engine(statement).value.readonly
                        && r.value.columns == engine(statement).value.columns
                        && r.value.gathered == Whole(engine(statement).value, limits.maxRows)
                        && readings > old(readings) && r.value.elapsed == clock(readings - 1) - clock(old(readings))
      ensures r.Err? ==> Stopped(statement, limits, clock(old(readings)), old(readings), old(looks), r.error)
    {
      hide Whole, Passes, StepsStopped;
      var started := Now();
      var prepared := Prepare(statement);
      if prepared.Err? { return Err(prepared.error); }
      var p := prepared.value;
      if !p.readonly { return Err(NotReadOnly); }
      open, position, steps := true, 0, 0;
      var stepped := StepAll(p, limits, started, old(readings));
      open := false;
      if stepped.Err? { return Err(stepped.error); }
      var now := Now();
      return Ok(SqlResult(p.columns, stepped.value, now - started));
    }

    // How many rows and how many milliseconds a caller may ask for; what is not said has a default.
    static function CheckLimits(maxRows: Option<real>, timeout: Option<real>): (r: Option<Limits>)
      ensures r.Some? ==> 1 <= r.value.maxRows <= 100000 && 100.0 <= r.value.timeout <= MAX_TIMEOUT
    {
      var rows, ms := maxRows.GetOr(DEFAULT_ROWS), timeout.GetOr(DEFAULT_TIMEOUT);
      if rows.Floor as real != rows || rows < 1.0 || rows > MAX_ROWS then None
      else if ms.Floor as real != ms || ms < 100.0 || ms > MAX_TIMEOUT then None
      else Some(Limits(rows.Floor, ms))
    }

    static predicate Reads(statement: string) { FirstWord(statement) in {"select", "with", "values", "explain"} }

    // Refuses what is not one reading statement of a bounded length, or comes while another runs; else executes it.
    method Run(sql: string, maxRows: Option<real>, timeout: Option<real>) returns (r: Result<SqlResult, Code>)
      requires Valid()
      modifies this
      ensures Valid() && running == old(running)
      ensures r.Ok? ==>
        var l := CheckLimits(maxRows, timeout);
        && l.Some? && |sql| <= MAX_CHARS && !old(running)
        && |StatementsOf(sql)| == 1 && Reads(StatementsOf(sql)[0])
        && engine(StatementsOf(sql)[0]).Ok? && engine(StatementsOf(sql)[0]).value.readonly
        && r.value.columns == engine(StatementsOf(sql)[0]).value.columns
        && r.value.gathered == Whole(engine(StatementsOf(sql)[0]).value, l.value.maxRows)
        && readings > old(readings) && r.value.elapsed == clock(readings - 1) - clock(old(readings))
      ensures r.Err? ==>
        var l := CheckLimits(maxRows, timeout);
        if l.None? then r.error == LimitInvalid
        else if |sql| > MAX_CHARS then r.error == TooLong
        else if |StatementsOf(sql)| == 0 then r.error == Empty
        else if |StatementsOf(sql)| > 1 then r.error == MultipleStatements
        else if !Reads(StatementsOf(sql)[0]) then r.error == NotReadOnly
        else if old(running) then r.error == Busy
        else Stopped(StatementsOf(sql)[0], l.value, clock(old(readings)), old(readings), old(looks), r.error)
    {
      hide Whole, StatementsOf, CheckLimits, FirstWord, Stopped;
      var limits := CheckLimits(maxRows, timeout);
      if limits.None? { return Err(LimitInvalid); }
      if |sql| > MAX_CHARS { return Err(TooLong); }
      var parts := SplitStatements(sql);
      if |parts| == 0 { return Err(Empty); }
      if |parts| > 1 { return Err(MultipleStatements); }
      if !Reads(parts[0]) { return Err(NotReadOnly); }
      if running { return Err(Busy); }
      running := true;
      r := Execute(parts[0], limits.value);
      running := false;
    }
  }

  function Letters(s: string): string {
    if s != "" && (Filters.IsLower(s[0]) || Filters.IsUpper(s[0])) then [s[0]] + Letters(s[1..]) else ""
  }

  function FirstWord(s: string): string { Filters.AsciiLower(Letters(s)) }

  // ---- slices that fall differently gather the same -----------------------------------------------------------------------------------------

  lemma InsideRows(g: Gathered, p: Prepared, maxRows: nat, position: nat)
    requires GatherInv(g, p, maxRows, position)
    ensures position <= |p.rows|
  {
  }

  lemma NothingGathered(p: Prepared, maxRows: nat)
    requires maxRows >= 1
    ensures GatherInv(Gathered(SqlRows([], false, false), false), p, maxRows, 0)
  {
    assert p.rows[..0] == [] && ShownRows([]) == [];
  }

  lemma EndedIsWhole(g: Gathered, p: Prepared, maxRows: nat)
    requires !g.finished && GatherInv(g, p, maxRows, |p.rows|)
    ensures GatherInv(g.(finished := true), p, maxRows, |p.rows|)
  {
    hide ShownRows, AnyCut;
  }

  // A row more, and when it is the last within the limit a further step tells if others follow.
  lemma TakenRow(g: Gathered, p: Prepared, maxRows: nat, position: nat)
    requires !g.finished && GatherInv(g, p, maxRows, position) && position < |p.rows|
    ensures var r := SqlRows(g.result.rows + [ShownRow(p.rows[position])], false, g.result.cellsCut || CutRow(p.rows[position]));
      && |r.rows| == position + 1
      && (position + 1 < maxRows ==> GatherInv(Gathered(r, false), p, maxRows, position + 1))
      && (position + 1 >= maxRows && position + 1 < |p.rows| ==>
            GatherInv(Gathered(r.(truncated := true), true), p, maxRows, position + 2))
      && (position + 1 >= maxRows && position + 1 == |p.rows| ==> GatherInv(Gathered(r, true), p, maxRows, position + 1))
  {
    GatherMore(p, position);
    hide AnyCut, ShownRow, CutRow;
  }

  lemma FinishedIsWhole(g: Gathered, p: Prepared, maxRows: nat, position: nat)
    requires g.finished && GatherInv(g, p, maxRows, position)
    ensures g.result == Whole(p, maxRows)
  {
    hide Whole;
  }
}
