// A run as a file: a bundle as JSON lines and back (packages/storage/src/run-bundle.ts).
module RunFiles {
  import opened Wrappers
  import opened Trace
  import opened Base64
  import opened Atob
  import opened BeliefFrames

  const MAX_RUN_FILE_BYTES := 512 * 1024 * 1024
  const MAX_LINE_BYTES := 128 * 1024 * 1024
  const MAX_LINES := 8000000
  const FORMAT := "agentsim-run-jsonl"
  const VERSION := 1

  // `rest` is what a header holds besides.
  datatype Header = Header(runId: string, scenarioId: Option<string>, scenarioVersion: Option<nat>, importedFrom: Option<string>,
                           rest: Value)

  datatype Scenario = Scenario(id: string, version: nat, name: string, document: Value, contentHash: string, createdAt: real)

  datatype Metric = Metric(source: string, name: string, tick: nat, simTime: real, value: real)

  datatype Snapshot = Snapshot(seqNo: nat, simTime: real, tick: nat, bytes: seq<byte>)

  datatype Blob = Blob(id: string, bytes: seq<byte>)

  datatype Bundle = Bundle(header: Header, scenario: Option<Scenario>, inputs: seq<Value>, records: seq<TraceRecord>,
                           snapshots: seq<Snapshot>, blobs: seq<Blob>, frames: seq<Frame>, metrics: Option<seq<Metric>>)

  // What a line of the file says; bytes stand in it as base64, those of a frame beside the frame.
  datatype Line =
    | HeaderLine(format: string, version: nat, header: Header)
    | ScenarioLine(scenario: Scenario)
    | InputLine(input: Value)
    | RecordLine(record: TraceRecord)
    | BlobLine(id: string, data: string)
    | SnapshotLine(seqNo: nat, simTime: real, tick: nat, data: string)
    | MetricLine(metric: Metric)
    | FrameLine(frame: Frame, frameData: Option<string>)
    | OtherLine(kind: string)

  // JSON text: how a line is written and read, which header is one, and how long a text is in bytes.
  datatype Codec = Codec(write: Line -> string, read: string -> Option<Line>, isHeader: Header -> bool, size: string -> nat)

  // Each of these lines reads back as it was written, stands on one line and is not empty.
  ghost predicate Faithful(c: Codec, ls: seq<Line>) {
    forall l :: l in ls ==> c.read(c.write(l)) == Some(l) && '\n' !in c.write(l) && c.write(l) != ""
  }

  datatype FileError = NotRunFile | UnsupportedVersion | TooLarge | Corrupt(n: nat)

  // ---- writing --------------------------------------------------------------------------------------------------------------------------

  function InputLines(xs: seq<Value>): seq<Line> { seq(|xs|, k requires 0 <= k < |xs| => InputLine(xs[k])) }

  function RecordLines(xs: seq<TraceRecord>): seq<Line> { seq(|xs|, k requires 0 <= k < |xs| => RecordLine(xs[k])) }

  function BlobLines(xs: seq<Blob>): seq<Line> { seq(|xs|, k requires 0 <= k < |xs| => BlobLine(xs[k].id, Encoded(xs[k].bytes))) }

  function SnapshotLines(xs: seq<Snapshot>): seq<Line> {
    seq(|xs|, k requires 0 <= k < |xs| => SnapshotLine(xs[k].seqNo, xs[k].simTime, xs[k].tick, Encoded(xs[k].bytes)))
  }

  function MetricLines(xs: seq<Metric>): seq<Line> { seq(|xs|, k requires 0 <= k < |xs| => MetricLine(xs[k])) }

  function FrameLines(xs: seq<Frame>): seq<Line> {
    seq(|xs|, k requires 0 <= k < |xs| => FrameLine(xs[k].(data := None), if xs[k].data.None? then None else Some(Encoded(xs[k].data.value))))
  }

  // The lines behind the first.
  function BodyLines(b: Bundle): seq<Line> {
    (if b.scenario.Some? then [ScenarioLine(b.scenario.value)] else [])
    + InputLines(b.inputs) + RecordLines(b.records) + BlobLines(b.blobs) + SnapshotLines(b.snapshots)
    + MetricLines(b.metrics.GetOr([])) + FrameLines(b.frames)
  }

  function FileLines(b: Bundle): seq<Line> { [HeaderLine(FORMAT, VERSION, b.header)] + BodyLines(b) }

  function Written(c: Codec, ls: seq<Line>): seq<string> { seq(|ls|, k requires 0 <= k < |ls| => c.write(ls[k])) }

  // Each line with the end of line behind it.
  function Joined(texts: seq<string>): string { if texts == [] then "" else texts[0] + "\n" + Joined(texts[1..]) }

  function FileOf(c: Codec, b: Bundle): string {
    Joined(Written(c, FileLines(b)))
  }

  method BundleToJsonl(c: Codec, b: Bundle) returns (text: string)
    ensures text == FileOf(c, b)
  {
    hide InputLines, RecordLines, BlobLines, SnapshotLines, MetricLines, FrameLines, Written, Joined;
    var lines: seq<Line> := if b.scenario.Some? then [ScenarioLine(b.scenario.value)] else [];
    var inputs := WriteInputs(b.inputs);
    var records := WriteRecords(b.records);
    var blobs := WriteBlobs(b.blobs);
    var snapshots := WriteSnapshots(b.snapshots);
    var metrics := WriteMetrics(b.metrics.GetOr([]));
    var frames := WriteFrames(b.frames);
    lines := [HeaderLine(FORMAT, VERSION, b.header)] + (lines + inputs + records + blobs + snapshots + metrics + frames);
    text := WriteText(c, lines);
  }

  method WriteText(c: Codec, lines: seq<Line>) returns (text: string)
    ensures text == Joined(Written(c, lines))
  {
    text := "";
    ghost var texts := Written(c, lines);
    assert texts[0..] == texts && "" + Joined(texts) == Joined(texts);
    hide Joined;
    for k := 0 to |lines|
      invariant text + Joined(texts[k..]) == Joined(texts)
    {
      JoinedStep(texts, k, text);
      text := text + c.write(lines[k]) + "\n";
    }
    JoinedEnds(texts[|lines|..], text);
  }

  lemma JoinedStep(texts: seq<string>, k: nat, text: string)
    requires k < |texts|
    ensures text + Joined(texts[k..]) == text + texts[k] + "\n" + Joined(texts[k + 1..])
  {
    assert texts[k..][1..] == texts[k + 1..];
    assert Joined(texts[k..]) == texts[k] + "\n" + Joined(texts[k + 1..]);
    hide Joined;
  }

  lemma JoinedEnds(none: seq<string>, text: string)
    requires none == []
    ensures text + Joined(none) == text
  {
  }

  method WriteInputs(xs: seq<Value>) returns (lines: seq<Line>)
    ensures lines == InputLines(xs)
  {
    lines := [];
    for k := 0 to |xs|
      invariant lines == InputLines(xs[..k])
    {
      lines := lines + [InputLine(xs[k])];
    }
    assert xs[..|xs|] == xs;
  }

  method WriteRecords(xs: seq<TraceRecord>) returns (lines: seq<Line>)
    ensures lines == RecordLines(xs)
  {
    lines := [];
    for k := 0 to |xs|
      invariant lines == RecordLines(xs[..k])
    {
      lines := lines + [RecordLine(xs[k])];
    }
    assert xs[..|xs|] == xs;
  }

  method WriteMetrics(xs: seq<Metric>) returns (lines: seq<Line>)
    ensures lines == MetricLines(xs)
  {
    lines := [];
    for k := 0 to |xs|
      invariant lines == MetricLines(xs[..k])
    {
      lines := lines + [MetricLine(xs[k])];
    }
    assert xs[..|xs|] == xs;
  }

  method WriteBlobs(xs: seq<Blob>) returns (lines: seq<Line>)
    ensures lines == BlobLines(xs)
  {
    hide Encoded;
    lines := [];
    for k := 0 to |xs|
      invariant lines == BlobLines(xs[..k])
    {
      var data := ToBase64(xs[k].bytes);
      lines := lines + [BlobLine(xs[k].id, data)];
    }
    assert xs[..|xs|] == xs;
  }

  method WriteSnapshots(xs: seq<Snapshot>) returns (lines: seq<Line>)
    ensures lines == SnapshotLines(xs)
  {
    hide Encoded;
    lines := [];
    for k := 0 to |xs|
      invariant lines == SnapshotLines(xs[..k])
    {
      var data := ToBase64(xs[k].bytes);
      lines := lines + [SnapshotLine(xs[k].seqNo, xs[k].simTime, xs[k].tick, data)];
    }
    assert xs[..|xs|] == xs;
  }

  method WriteFrames(xs: seq<Frame>) returns (lines: seq<Line>)
    ensures lines == FrameLines(xs)
  {
    hide Encoded;
    lines := [];
    for k := 0 to |xs|
      invariant lines == FrameLines(xs[..k])
    {
      var data: Option<string> := None;
      if xs[k].data.Some? {
        var text := ToBase64(xs[k].data.value);
        data := Some(text);
      }
      lines := lines + [FrameLine(xs[k].(data := None), data)];
    }
    assert xs[..|xs|] == xs;
  }

  // ---- reading --------------------------------------------------------------------------------------------------------------------------------

  // The parts between the ends of line.
  function Lines(text: string): (ls: seq<string>)
    ensures ls != []
  {
    if text == "" then [""]
    else if text[0] == '\n' then [""] + Lines(text[1..])
    else
      var rest := Lines(text[1..]);
      [[text[0]] + rest[0]] + rest[1..]
  }

  method SplitLines(text: string) returns (ls: seq<string>)
    ensures ls == Lines(text)
  {
    ls := [""];
    for k := |text| downto 0
      invariant ls == Lines(text[k..])
    {
      assert text[k..][1..] == text[k + 1..];
      ls := if text[k] == '\n' then [""] + ls else [[text[k]] + ls[0]] + ls[1..];
    }
    assert text[0..] == text;
  }

  function Empty(h: Header): Bundle { Bundle(h, None, [], [], [], [], [], Some([])) }

  // A line added to what is read; nothing when it is no line of a run file.
  function Added(b: Bundle, l: Line): Option<Bundle> {
    match l
    case HeaderLine(_, _, _) => None
    case ScenarioLine(s) => Some(b.(scenario := Some(s)))
    case InputLine(v) => Some(b.(inputs := b.inputs + [v]))
    case RecordLine(r) => Some(b.(records := b.records + [r]))
    case BlobLine(id, data) =>
      var bytes := Forgiven(data);
      if bytes.None? then None else Some(b.(blobs := b.blobs + [Blob(id, bytes.value)]))
    case SnapshotLine(n, simTime, tick, data) =>
      var bytes := Forgiven(data);
      if bytes.None? then None else Some(b.(snapshots := b.snapshots + [Snapshot(n, simTime, tick, bytes.value)]))
    case MetricLine(m) => Some(b.(metrics := Some(b.metrics.GetOr([]) + [m])))
    case FrameLine(f, data) =>
      if data.None? then Some(b.(frames := b.frames + [f]))
      else
        var bytes := Forgiven(data.value);
        if bytes.None? then None else Some(b.(frames := b.frames + [f.(data := bytes)]))
    case OtherLine(_) => None
  }

  // The lines from the n-th on, read into a bundle; empty ones are passed over.
  function ReadLines(c: Codec, b: Bundle, texts: seq<string>, n: nat): Result<Bundle, FileError>
    decreases |texts|
  {
    if texts == [] then Ok(b)
    else if texts[0] == "" then ReadLines(c, b, texts[1..], n + 1)
    else if |texts[0]| > MAX_LINE_BYTES then Err(TooLarge)
    else
      var l := c.read(texts[0]);
      if l.None? || Added(b, l.value).None? then Err(Corrupt(n)) else ReadLines(c, Added(b, l.value).value, texts[1..], n + 1)
  }

  function BundleOf(c: Codec, text: string): Result<Bundle, FileError> {
    var texts := Lines(text);
    if c.size(text) > MAX_RUN_FILE_BYTES || |texts| > MAX_LINES then Err(TooLarge)
    else
      match c.read(texts[0])
      case Some(HeaderLine(format, version, header)) =>
        if format != FORMAT then Err(NotRunFile)
        else if version != VERSION then Err(UnsupportedVersion)
        else if !c.isHeader(header) then Err(Corrupt(0))
        else ReadLines(c, Empty(header), texts[1..], 1)
      case _ => Err(NotRunFile)
  }

  method BundleFromJsonl(c: Codec, text: string) returns (r: Result<Bundle, FileError>)
    ensures r == BundleOf(c, text)
  {
    hide Added;
    if c.size(text) > MAX_RUN_FILE_BYTES { return Err(TooLarge); }
    var texts := SplitLines(text);
    if |texts| > MAX_LINES { return Err(TooLarge); }
    var first := c.read(texts[0]);
    if first.None? || !first.value.HeaderLine? { return Err(NotRunFile); }
    if first.value.format != FORMAT { return Err(NotRunFile); }
    if first.value.version != VERSION { return Err(UnsupportedVersion); }
    if !c.isHeader(first.value.header) { return Err(Corrupt(0)); }
    var b := Empty(first.value.header);
    for n := 1 to |texts|
      invariant ReadLines(c, b, texts[n..], n) == ReadLines(c, Empty(first.value.header), texts[1..], 1)
    {
      assert texts[n..][1..] == texts[n + 1..] && texts[n..][0] == texts[n];
      if texts[n] == "" { continue; }
      if |texts[n]| > MAX_LINE_BYTES { return Err(TooLarge); }
      var l := c.read(texts[n]);
      if l.None? { return Err(Corrupt(n)); }
      var more := AddLine(b, l.value);
      if more.None? { return Err(Corrupt(n)); }
      b := more.value;
    }
    return Ok(b);
  }

  method AddLine(b: Bundle, l: Line) returns (r: Option<Bundle>)
    ensures r == Added(b, l)
  {
    hide Forgiven;
    match l {
      case BlobLine(id, data) =>
        var bytes := Base64ToBytes(data);
        r := if bytes.None? then None else Some(b.(blobs := b.blobs + [Blob(id, bytes.value)]));
      case SnapshotLine(n, simTime, tick, data) =>
        var bytes := Base64ToBytes(data);
        r := if bytes.None? then None else Some(b.(snapshots := b.snapshots + [Snapshot(n, simTime, tick, bytes.value)]));
      case FrameLine(f, data) =>
        if data.None? { return Some(b.(frames := b.frames + [f])); }
        var bytes := Base64ToBytes(data.value);
        r := if bytes.None? then None else Some(b.(frames := b.frames + [f.(data := bytes)]));
      case _ => r := Added(b, l);
    }
  }

  // ---- the round trip ---------------------------------------------------------------------------------------------------------------------------

  lemma {:induction false} LinesOfLine(line: string, rest: string)
    requires '\n' !in line
    ensures Lines(line + "\n" + rest) == [line] + Lines(rest)
  {
    var text := line + "\n" + rest;
    if line == "" {
      assert text[0] == '\n' && text[1..] == rest;
    } else {
      assert text[0] == line[0] && text[1..] == line[1..] + "\n" + rest;
      LinesOfLine(line[1..], rest);
      assert [line[0]] + line[1..] == line;
    }
  }

  lemma {:induction false} LinesOfJoined(texts: seq<string>)
    requires forall t :: t in texts ==> '\n' !in t
    ensures Lines(Joined(texts)) == texts + [""]
  {
    if texts != [] {
      LinesOfJoined(texts[1..]);
      LinesOfLine(texts[0], Joined(texts[1..]));
      hide Lines;
      assert texts == [texts[0]] + texts[1..];
    }
  }

  // Reading in one go what was written line by line.
  function AddedAll(b: Bundle, ls: seq<Line>): Option<Bundle>
    decreases |ls|
  {
    if ls == [] then Some(b) else if Added(b, ls[0]).None? then None else AddedAll(Added(b, ls[0]).value, ls[1..])
  }

  lemma {:induction false} AddedConcat(b: Bundle, x: seq<Line>, y: seq<Line>)
    requires AddedAll(b, x).Some?
    ensures AddedAll(b, x + y) == AddedAll(AddedAll(b, x).value, y)
    decreases |x|
  {
    hide Added;
    if x == [] {
      assert x + y == y;
    } else {
      assert (x + y)[1..] == x[1..] + y;
      AddedConcat(Added(b, x[0]).value, x[1..], y);
    }
  }

  ghost predicate Short(c: Codec, ls: seq<Line>) { forall l :: l in ls ==> |c.write(l)| <= MAX_LINE_BYTES }

  lemma {:induction false} WrittenReads(c: Codec, b: Bundle, ls: seq<Line>, n: nat)
    requires Faithful(c, ls) && AddedAll(b, ls).Some?
    ensures ReadLines(c, b, Written(c, ls) + [""], n) == if Short(c, ls) then Ok(AddedAll(b, ls).value) else Err(TooLarge)
    decreases |ls|
  {
    hide Added;
    var texts := Written(c, ls) + [""];
    if ls == [] {
      assert texts[1..] == [];
    } else {
      assert texts[0] == c.write(ls[0]) && texts[1..] == Written(c, ls[1..]) + [""];
      WrittenReads(c, Added(b, ls[0]).value, ls[1..], n + 1);
      assert ls == [ls[0]] + ls[1..];
    }
  }

  lemma {:induction false} InputsRead(b: Bundle, xs: seq<Value>)
    ensures AddedAll(b, InputLines(xs)) == Some(b.(inputs := b.inputs + xs))
    decreases |xs|
  {
    if xs == [] {
      assert b.inputs + xs == b.inputs;
    } else {
      InputsRead(b.(inputs := b.inputs + [xs[0]]), xs[1..]);
      assert InputLines(xs)[1..] == InputLines(xs[1..]);
      assert b.inputs + [xs[0]] + xs[1..] == b.inputs + xs;
    }
  }

  lemma {:induction false} RecordsRead(b: Bundle, xs: seq<TraceRecord>)
    ensures AddedAll(b, RecordLines(xs)) == Some(b.(records := b.records + xs))
    decreases |xs|
  {
    if xs == [] {
      assert b.records + xs == b.records;
    } else {
      RecordsRead(b.(records := b.records + [xs[0]]), xs[1..]);
      assert RecordLines(xs)[1..] == RecordLines(xs[1..]);
      assert b.records + [xs[0]] + xs[1..] == b.records + xs;
    }
  }

  lemma {:induction false} BlobsRead(b: Bundle, xs: seq<Blob>)
    ensures AddedAll(b, BlobLines(xs)) == Some(b.(blobs := b.blobs + xs))
    decreases |xs|
  {
    hide Encoded, Forgiven;
    if xs == [] {
      assert b.blobs + xs == b.blobs;
    } else {
      ForgivenRoundTrip(xs[0].bytes);
      BlobsRead(b.(blobs := b.blobs + [xs[0]]), xs[1..]);
      assert BlobLines(xs)[1..] == BlobLines(xs[1..]);
      assert b.blobs + [xs[0]] + xs[1..] == b.blobs + xs;
    }
  }

  lemma {:induction false} SnapshotsRead(b: Bundle, xs: seq<Snapshot>)
    ensures AddedAll(b, SnapshotLines(xs)) == Some(b.(snapshots := b.snapshots + xs))
    decreases |xs|
  {
    hide Encoded, Forgiven;
    if xs == [] {
      assert b.snapshots + xs == b.snapshots;
    } else {
      ForgivenRoundTrip(xs[0].bytes);
      SnapshotsRead(b.(snapshots := b.snapshots + [xs[0]]), xs[1..]);
      assert SnapshotLines(xs)[1..] == SnapshotLines(xs[1..]);
      assert b.snapshots + [xs[0]] + xs[1..] == b.snapshots + xs;
    }
  }

  lemma {:induction false} MetricsRead(b: Bundle, xs: seq<Metric>)
    requires b.metrics.Some?
    ensures AddedAll(b, MetricLines(xs)) == Some(b.(metrics := Some(b.metrics.value + xs)))
    decreases |xs|
  {
    if xs == [] {
      assert b.metrics.value + xs == b.metrics.value;
    } else {
      MetricsRead(b.(metrics := Some(b.metrics.value + [xs[0]])), xs[1..]);
      assert MetricLines(xs)[1..] == MetricLines(xs[1..]);
      assert b.metrics.value + [xs[0]] + xs[1..] == b.metrics.value + xs;
    }
  }

  lemma {:induction false} FramesRead(b: Bundle, xs: seq<Frame>)
    ensures AddedAll(b, FrameLines(xs)) == Some(b.(frames := b.frames + xs))
    decreases |xs|
  {
    hide Encoded, Forgiven;
    if xs == [] {
      assert b.frames + xs == b.frames;
    } else {
      if xs[0].data.Some? { ForgivenRoundTrip(xs[0].data.value); }
      FramesRead(b.(frames := b.frames + [xs[0]]), xs[1..]);
      assert FrameLines(xs)[1..] == FrameLines(xs[1..]);
      assert b.frames + [xs[0]] + xs[1..] == b.frames + xs;
    }
  }

  // Absent metrics become empty.
  function WithMetrics(b: Bundle): Bundle { b.(metrics := Some(b.metrics.GetOr([]))) }

  lemma BodyReads(b: Bundle)
    ensures AddedAll(Empty(b.header), BodyLines(b)) == Some(WithMetrics(b))
  {
    var s := if b.scenario.Some? then [ScenarioLine(b.scenario.value)] else [];
    var b0 := Empty(b.header);
    var b1 := b0.(scenario := b.scenario);
    assert AddedAll(b0, s) == Some(b1) by { assert s != [] ==> s[1..] == []; }
    var b2 := b1.(inputs := b.inputs);
    InputsRead(b1, b.inputs);
    assert [] + b.inputs == b.inputs;
    var b3 := b2.(records := b.records);
    RecordsRead(b2, b.records);
    assert [] + b.records == b.records;
    var b4 := b3.(blobs := b.blobs);
    BlobsRead(b3, b.blobs);
    assert [] + b.blobs == b.blobs;
    var b5 := b4.(snapshots := b.snapshots);
    SnapshotsRead(b4, b.snapshots);
    assert [] + b.snapshots == b.snapshots;
    var ms := b.metrics.GetOr([]);
    var b6 := b5.(metrics := Some(ms));
    MetricsRead(b5, ms);
    assert [] + ms == ms;
    var b7 := b6.(frames := b.frames);
    FramesRead(b6, b.frames);
    assert [] + b.frames == b.frames;
    assert b7 == WithMetrics(b);
    hide AddedAll, InputLines, RecordLines, BlobLines, SnapshotLines, MetricLines, FrameLines;
    Appends(b0, s, b1, InputLines(b.inputs), b2);
    Appends(b0, s + InputLines(b.inputs), b2, RecordLines(b.records), b3);
    Appends(b0, s + InputLines(b.inputs) + RecordLines(b.records), b3, BlobLines(b.blobs), b4);
    Appends(b0, s + InputLines(b.inputs) + RecordLines(b.records) + BlobLines(b.blobs), b4, SnapshotLines(b.snapshots), b5);
    Appends(b0, s + InputLines(b.inputs) + RecordLines(b.records) + BlobLines(b.blobs) + SnapshotLines(b.snapshots), b5,
            MetricLines(ms), b6);
    Appends(b0, s + InputLines(b.inputs) + RecordLines(b.records) + BlobLines(b.blobs) + SnapshotLines(b.snapshots) + MetricLines(ms),
            b6, FrameLines(b.frames), b7);
  }

  // One stretch of lines behind another.
  lemma Appends(b: Bundle, x: seq<Line>, bx: Bundle, y: seq<Line>, bxy: Bundle)
    requires AddedAll(b, x) == Some(bx) && AddedAll(bx, y) == Some(bxy)
    ensures AddedAll(b, x + y) == Some(bxy)
  {
    AddedConcat(b, x, y);
  }

  // The limits of a file: its size, its number of lines and the length of each behind the first.
  ghost predicate InLimits(c: Codec, b: Bundle) {
    && c.size(FileOf(c, b)) <= MAX_RUN_FILE_BYTES
    && |BodyLines(b)| + 2 <= MAX_LINES
    && Short(c, BodyLines(b))
  }

  // With a text of JSON that carries the lines of this file, a bundle written reads back as itself, absent metrics as empty, just
  // when its header is one and it is within the limits; otherwise it is told which.
  lemma FileRoundTrip(c: Codec, b: Bundle)
    requires Faithful(c, FileLines(b))
    ensures BundleOf(c, FileOf(c, b)) ==
      if c.size(FileOf(c, b)) > MAX_RUN_FILE_BYTES || |BodyLines(b)| + 2 > MAX_LINES then Err(TooLarge)
      else if !c.isHeader(b.header) then Err(Corrupt(0))
      else if !Short(c, BodyLines(b)) then Err(TooLarge)
      else Ok(WithMetrics(b))
  {
    var body := BodyLines(b);
    var ls := FileLines(b);
    assert forall l :: l in body ==> l in ls;
    var texts := Written(c, ls);
    LinesOfJoined(texts);
    BodyReads(b);
    WrittenReads(c, Empty(b.header), body, 1);
    hide BodyLines, AddedAll, Joined, Lines, ReadLines, WithMetrics, Short;
    assert |texts| == 1 + |body|;
    assert (texts + [""])[1..] == Written(c, body) + [""];
    assert (texts + [""])[0] == c.write(HeaderLine(FORMAT, VERSION, b.header));
  }
}
