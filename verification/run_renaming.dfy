// The renaming of a run's records when it comes into a database under a new ID (packages/storage/src/run-bundle.ts).
module RunRenaming {
  import opened Wrappers
  import opened Trace
  import opened Sorting
  import opened StoredLog
  import Decimal

  predicate Names(id: string, run: string) { |id| > |run| && id[..|run|] == run && id[|run|] == '#' }

  // A record ID that names the run by its old ID names it by its new one.
  function Rewrite(id: string, from: string, to: string): string {
    if Names(id, from) then to + "#" + id[|from| + 1..] else id
  }

  lemma RewriteNames(id: string, from: string, to: string)
    requires Names(id, from)
    ensures Names(Rewrite(id, from, to), to) && Rewrite(id, from, to)[|to| + 1..] == id[|from| + 1..]
  {
    var r := to + "#" + id[|from| + 1..];
    assert r[..|to|] == to && r[|to|] == '#' && r[|to| + 1..] == id[|from| + 1..];
  }

  lemma NamedBy(id: string, run: string)
    requires Names(id, run)
    ensures id == run + "#" + id[|run| + 1..]
  {
  }

  // The renaming can be undone just where it is one: on IDs that do not already name the new run.
  lemma RewriteUndone(id: string, from: string, to: string)
    ensures Rewrite(Rewrite(id, from, to), to, from) == id <==> Undoable(id, from, to)
  {
    if Names(id, from) {
      RewriteNames(id, from, to);
      NamedBy(id, from);
    } else if Names(id, to) {
      NamedBy(id, to);
      RewriteNames(id, to, from);
      if from != to { NotBoth(id, from, to); }
    }
  }

  predicate Undoable(id: string, from: string, to: string) { from == to || Names(id, from) || !Names(id, to) }

  lemma NotBoth(id: string, from: string, to: string)
    requires Names(id, to) && !Names(id, from)
    ensures Rewrite(id, to, from) != id
  {
    RewriteNames(id, to, from);
  }

  lemma RewriteInjective(a: string, b: string, from: string, to: string)
    requires !Names(a, to) && !Names(b, to) && Rewrite(a, from, to) == Rewrite(b, from, to)
    ensures a == b
  {
    RewriteUndone(a, from, to);
    RewriteUndone(b, from, to);
  }

  lemma RecordIdNames(run: string, n: nat)
    ensures Names(RecordId(run, n), run) && RecordId(run, n)[|run| + 1..] == Decimal.Digits(n)
  {
    var id := RecordId(run, n);
    assert id[..|run|] == run && id[|run|] == '#' && id[|run| + 1..] == Decimal.Digits(n);
  }

  lemma RecordIdRewritten(run: string, to: string, n: nat)
    ensures Rewrite(RecordId(run, n), run, to) == RecordId(to, n)
  {
    RecordIdNames(run, n);
    assert to + "#" + Decimal.Digits(n) == to + ("#" + Decimal.Digits(n));
  }

  function RewriteOpt(id: Option<string>, from: string, to: string): Option<string> {
    if id.None? then None else Some(Rewrite(id.value, from, to))
  }

  function RewriteAll(ids: seq<string>, from: string, to: string): seq<string> {
    seq(|ids|, k requires 0 <= k < |ids| => Rewrite(ids[k], from, to))
  }

  // A record as it comes across: of the new run, its own ID and those of its parent and causes rewritten.
  function Renamed(r: TraceRecord, from: string, to: string): TraceRecord {
    r.(runId := to, id := Rewrite(r.id, from, to), parentId := RewriteOpt(r.parentId, from, to),
       causeIds := if r.causeIds.None? then None else Some(RewriteAll(r.causeIds.value, from, to)))
  }

  function RenamedAll(rs: seq<TraceRecord>, from: string, to: string): seq<TraceRecord> {
    seq(|rs|, k requires 0 <= k < |rs| => Renamed(rs[k], from, to))
  }

  // ---- what a record's references become ----------------------------------------------------------------------------------------------------

  function CausesOf(r: TraceRecord): seq<string> { r.causeIds.GetOr([]) }

  predicate Refers(r: TraceRecord, id: string) { r.parentId == Some(id) || id in CausesOf(r) }

  // A reference to the n-th record of the run it becomes, which is no reference to the run it was.
  predicate Stray(id: string, from: string, to: string, n: nat) { id == RecordId(to, n) && !Names(id, from) }

  // After the renaming a reference names the n-th record just when it did before, or is a stray.
  lemma RewriteToRecord(id: string, from: string, to: string, n: nat)
    ensures Rewrite(id, from, to) == RecordId(to, n) <==> id == RecordId(from, n) || Stray(id, from, to, n)
    ensures Stray(id, from, to, n) ==> id != RecordId(from, n)
  {
    RecordIdNames(from, n);
    RecordIdNames(to, n);
    RecordIdRewritten(from, to, n);
    if Names(id, from) && Rewrite(id, from, to) == RecordId(to, n) {
      RewriteNames(id, from, to);
      NamedBy(id, from);
      NamedBy(RecordId(from, n), from);
    }
  }

  // One record names another after the renaming just when it did before, or did by a stray reference: of its parent and of each of
  // its causes.
  lemma EdgeExact(from: string, to: string, r: TraceRecord, p: TraceRecord)
    requires p.id == RecordId(from, p.seqNo)
    ensures Renamed(r, from, to).parentId == Some(Renamed(p, from, to).id) <==>
      r.parentId == Some(p.id) || (r.parentId.Some? && Stray(r.parentId.value, from, to, p.seqNo))
    ensures Renamed(r, from, to).causeIds.Some? <==> r.causeIds.Some?
    ensures var before, after := CausesOf(r), CausesOf(Renamed(r, from, to));
      && |after| == |before|
      && forall k :: 0 <= k < |before| ==>
           (after[k] == Renamed(p, from, to).id <==> before[k] == p.id || Stray(before[k], from, to, p.seqNo))
  {
    hide Names, Rewrite, Stray, RecordId;
    RecordIdRewritten(from, to, p.seqNo);
    if r.parentId.Some? { RewriteToRecord(r.parentId.value, from, to, p.seqNo); }
    forall k | 0 <= k < |CausesOf(r)|
      ensures CausesOf(Renamed(r, from, to))[k] == Renamed(p, from, to).id <==>
        CausesOf(r)[k] == p.id || Stray(CausesOf(r)[k], from, to, p.seqNo)
    {
      RewriteToRecord(CausesOf(r)[k], from, to, p.seqNo);
    }
  }

  // The parent and the causes of a record name the same records of the run as before.
  ghost predicate SameEdges(from: string, to: string, r: TraceRecord, p: TraceRecord) {
    && (Renamed(r, from, to).parentId == Some(Renamed(p, from, to).id) <==> r.parentId == Some(p.id))
    && var before, after := CausesOf(r), CausesOf(Renamed(r, from, to));
      && |after| == |before|
      && forall k :: 0 <= k < |before| ==> (after[k] == Renamed(p, from, to).id <==> before[k] == p.id)
  }

  ghost predicate EdgesKept(rs: seq<TraceRecord>, from: string, to: string) {
    forall r, p :: r in rs && p in rs ==> SameEdges(from, to, r, p)
  }

  // No record refers to a number of the new run that a record of the run has.
  ghost predicate NoStrays(rs: seq<TraceRecord>, from: string, to: string) {
    forall r, p, id :: r in rs && p in rs && Refers(r, id) ==> !Stray(id, from, to, p.seqNo)
  }

  lemma SameEdgesWhen(from: string, to: string, r: TraceRecord, p: TraceRecord)
    requires p.id == RecordId(from, p.seqNo)
    ensures SameEdges(from, to, r, p) <==> forall id :: Refers(r, id) ==> !Stray(id, from, to, p.seqNo)
  {
    EdgeExact(from, to, r, p);
    hide Stray, RecordId, Renamed;
    forall id | Refers(r, id) ensures Stray(id, from, to, p.seqNo) ==> id != p.id { RewriteToRecord(id, from, to, p.seqNo); }
    var before := CausesOf(r);
    assert forall id :: id in before <==> exists k :: 0 <= k < |before| && before[k] == id;
    forall k | 0 <= k < |before| ensures Refers(r, before[k]) {}
  }

  // Every parent and cause edge of a run is kept and none is made, just when there is no stray reference.
  lemma EdgesKeptWhen(rs: seq<TraceRecord>, from: string, to: string)
    requires forall r :: r in rs ==> r.id == RecordId(from, r.seqNo)
    ensures EdgesKept(rs, from, to) <==> NoStrays(rs, from, to)
  {
    hide SameEdges, Stray, Refers, RecordId;
    forall r, p | r in rs && p in rs
      ensures SameEdges(from, to, r, p) <==> forall id :: Refers(r, id) ==> !Stray(id, from, to, p.seqNo)
    {
      SameEdgesWhen(from, to, r, p);
    }
  }

  // A run that becomes itself has none; and with IDs without a number sign a stray is any reference to such a number of the new run.
  lemma StraysAre(id: string, from: string, to: string, n: nat)
    requires '#' !in from && '#' !in to
    ensures Stray(id, from, to, n) <==> from != to && id == RecordId(to, n)
  {
    RecordIdNames(to, n);
    hide RecordId;
    if id == RecordId(to, n) && Names(id, from) { OneRun(id, from, to); }
  }

  lemma OneRun(id: string, a: string, b: string)
    requires '#' !in a && '#' !in b && Names(id, a) && Names(id, b)
    ensures a == b
  {
  }

  // A record that refers to record 0 of the run the bundle becomes, by its ID, is given record 0 of the bundle as its parent.
  lemma StrayGainsAnEdge(p: TraceRecord, r: TraceRecord)
    requires p.id == RecordId("run-000001", 0) && p.seqNo == 0 && r.parentId == Some(RecordId("run-000002", 0))
    ensures r.parentId != Some(p.id)
    ensures Renamed(r, "run-000001", "run-000002").parentId == Some(Renamed(p, "run-000001", "run-000002").id)
  {
    EdgeExact("run-000001", "run-000002", r, p);
    StraysAre(RecordId("run-000002", 0), "run-000001", "run-000002", 0);
    RewriteToRecord(RecordId("run-000002", 0), "run-000001", "run-000002", 0);
    hide RecordId, Renamed, Stray;
  }

  // ---- what comes across ------------------------------------------------------------------------------------------------------------------------

  // Everything a record refers to can be renamed back.
  ghost predicate AllUndoable(r: TraceRecord, from: string, to: string) { forall id :: Refers(r, id) ==> Undoable(id, from, to) }

  lemma RenamedBack(r: TraceRecord, from: string, to: string)
    requires r.runId == from && r.id == RecordId(from, r.seqNo)
    ensures Renamed(Renamed(r, from, to), to, from) == r <==> AllUndoable(r, from, to)
  {
    RecordIdNames(from, r.seqNo);
    hide Names, Rewrite, RecordId;
    RewriteUndone(r.id, from, to);
    if r.parentId.Some? { RewriteUndone(r.parentId.value, from, to); }
    if r.causeIds.Some? {
      var ids := r.causeIds.value;
      var back := RewriteAll(RewriteAll(ids, from, to), to, from);
      forall k | 0 <= k < |ids| ensures back[k] == ids[k] <==> Undoable(ids[k], from, to) { RewriteUndone(ids[k], from, to); }
      assert (forall id :: id in ids ==> Undoable(id, from, to)) ==> back == ids;
      assert back == ids ==> forall id :: id in ids ==> Undoable(id, from, to);
    }
  }

  // The records of a run: all of it, each with the ID of its number, and in an order the store takes.
  ghost predicate RecordsProper(rs: seq<TraceRecord>, run: string) {
    && (forall r :: r in rs ==> r.runId == run && r.id == RecordId(run, r.seqNo))
    && Ordered(Sort(BySeq, rs))
  }

  // What is written of the records.
  function Carried(rs: seq<TraceRecord>, from: string, to: string): seq<TraceRecord> { RenamedAll(Sort(BySeq, rs), from, to) }

  // They are the same records in the order of their numbers, each with the ID of its number in the new run and nothing else of them
  // changed but what they refer to.
  lemma RecordsCarried(rs: seq<TraceRecord>, from: string, to: string)
    requires RecordsProper(rs, from)
    ensures var sorted, out := Sort(BySeq, rs), Carried(rs, from, to);
      && Ordered(out) && multiset(sorted) == multiset(rs) && |out| == |sorted|
      && forall k :: 0 <= k < |out| ==>
           && out[k] == Renamed(sorted[k], from, to)
           && out[k] == sorted[k].(runId := to, id := RecordId(to, sorted[k].seqNo), parentId := out[k].parentId, causeIds := out[k].causeIds)
  {
    var sorted := Sort(BySeq, rs);
    var out := Carried(rs, from, to);
    assert TotalOrder(BySeq);
    SortIsSorted(BySeq, rs);
    SortedSameElements(BySeq, rs);
    hide Sort, TotalOrder, Names, Rewrite, RecordId;
    forall k | 0 <= k < |out| ensures out[k].id == RecordId(to, sorted[k].seqNo) {
      assert sorted[k] in rs;
      RecordIdRewritten(from, to, sorted[k].seqNo);
    }
  }

  // Renamed back they are what they were, just when what they refer to can be.
  lemma CarriedBack(rs: seq<TraceRecord>, from: string, to: string)
    requires RecordsProper(rs, from)
    ensures RenamedAll(Carried(rs, from, to), to, from) == Sort(BySeq, rs) <==> forall r :: r in rs ==> AllUndoable(r, from, to)
  {
    var sorted := Sort(BySeq, rs);
    var back := RenamedAll(Carried(rs, from, to), to, from);
    assert TotalOrder(BySeq);
    SortedSameElements(BySeq, rs);
    hide Sort, TotalOrder, AllUndoable, Renamed, RecordId;
    forall k | 0 <= k < |sorted| ensures back[k] == sorted[k] <==> AllUndoable(sorted[k], from, to) {
      assert sorted[k] in rs;
      RenamedBack(sorted[k], from, to);
    }
    assert (forall r :: r in rs ==> AllUndoable(r, from, to)) ==> back == sorted;
    assert back == sorted ==> forall r :: r in rs ==> AllUndoable(r, from, to);
  }
}
