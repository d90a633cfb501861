// The order in which a store keeps the records of a run (packages/storage/src/ports.ts).
module StoredLog {
  import opened Trace
  import opened Paging

  predicate BySeq(a: TraceRecord, b: TraceRecord) { a.seqNo <= b.seqNo }

  function IntLess(): (int, int) -> bool { (a: int, b: int) => a < b }

  function SeqKey(): TraceRecord -> int { (r: TraceRecord) => r.seqNo }

  // A stored log: numbers go up, and with them the sim time.
  ghost predicate Ordered(log: seq<TraceRecord>) {
    forall i, j :: 0 <= i < j < |log| ==> log[i].seqNo < log[j].seqNo && log[i].simTime <= log[j].simTime
  }

  lemma OrderedAscends(log: seq<TraceRecord>)
    requires Ordered(log)
    ensures Ascending(IntLess(), SeqKey(), log) && Irreflexive(IntLess())
  {
  }
}
