// The trace record and the run's record cache (packages/trace/src/trace-record.ts and trace-buffer.ts).
module Trace {
  import opened Wrappers
  import opened Decimal

  // A payload as the run hands it over: JSON data. Numbers are exact.
  datatype Value =
    | Null
    | Bool(b: bool)
    | Num(n: real)
    | Str(s: string)
    | Arr(items: seq<Value>)
    | Obj(fields: map<string, Value>)

  datatype TraceRecord = TraceRecord(
    id: string,
    runId: string,
    seqNo: nat,
    parentId: Option<string>,
    causeIds: Option<seq<string>>,
    simTime: real,
    agentId: Option<string>,
    groupId: Option<string>,
    source: string,
    kind: string,
    tier: Option<string>,
    payload: Value)

  // What a component appends: everything but the identity, which the buffer gives.
  datatype RecordInput = RecordInput(
    parentId: Option<string>,
    causeIds: Option<seq<string>>,
    simTime: real,
    agentId: Option<string>,
    groupId: Option<string>,
    kind: string,
    tier: Option<string>,
    payload: Value)

  function RecordId(runId: string, n: nat): string {
    runId + "#" + Digits(n)
  }

  function Stamp(r: RecordInput, runId: string, n: nat, source: string): TraceRecord {
    TraceRecord(RecordId(runId, n), runId, n, r.parentId, r.causeIds, r.simTime, r.agentId, r.groupId, source,
                r.kind, r.tier, r.payload)
  }

  // Consecutive sequence numbers starting at `base`.
  ghost predicate Numbered(log: seq<TraceRecord>, base: nat) {
    forall k :: 0 <= k < |log| ==> log[k].seqNo == base + k
  }

  ghost predicate TimeOrdered(log: seq<TraceRecord>) {
    forall j, k :: 0 <= j < k < |log| ==> log[j].simTime <= log[k].simTime
  }

  function Clamp(k: int, n: nat): (r: nat)
    ensures r <= n
  {
    if k <= 0 then 0 else if k >= n then n else k
  }

  // The records of `log` (numbered from `base`) with a seq in [from, to); without an end, those from `from` on.
  function Span(log: seq<TraceRecord>, base: nat, from: int, to: int): seq<TraceRecord> {
    var a, b := Clamp(from - base, |log|), Clamp(to - base, |log|);
    if a <= b then log[a..b] else []
  }

  function From(log: seq<TraceRecord>, base: nat, from: int): seq<TraceRecord> {
    log[Clamp(from - base, |log|)..]
  }
}
