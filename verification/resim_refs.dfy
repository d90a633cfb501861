// The references of a re-simulated window and the copies made for what it lacks (apps/lab/src/sim/resim-refs.ts).
module ResimRefs {
  import opened Wrappers
  import opened Trace
  import opened Sorting
  import opened StoredLog
  import Decimal

  // What a record may refer to: the hash of a space, a query, another record.
  datatype Ref = Space(hash: string) | Query(id: string) | Record(id: string)

  lemma IndexesDiffer()
    ensures forall i: nat, j: nat :: Decimal.Digits(i) == Decimal.Digits(j) ==> i == j
  {
    forall i: nat, j: nat | Decimal.Digits(i) == Decimal.Digits(j) ensures i == j { Decimal.DigitsInjective(i, j); }
  }

  // The fields of a payload; an array has its indexes, anything else none.
  function FieldsOf(v: Value): map<string, Value> {
    match v
    case Obj(fields) => fields
    case Arr(items) => IndexesDiffer(); map i: nat | i < |items| :: Decimal.Digits(i) := items[i]
    case _ => map[]
  }

  function TextField(r: TraceRecord, key: string): Option<string> {
    var p := FieldsOf(r.payload);
    if key in p && p[key].Str? then Some(p[key].s) else None
  }

  function IfText(t: Option<string>, f: string -> Ref): set<Ref> { if t.Some? then {f(t.value)} else {} }

  // What a record answers.
  function Provides(r: TraceRecord): set<Ref> {
    {Record(r.id)}
    + (if r.kind == "thought" && TextField(r, "op") == Some("space") then IfText(TextField(r, "hash"), s => Space(s)) else {})
    + (if r.kind == "compute" then IfText(TextField(r, "queryId"), s => Query(s)) else {})
  }

  function Causes(r: TraceRecord): seq<string> { r.causeIds.GetOr([]) }

  // What a record refers to.
  function Asks(r: TraceRecord): set<Ref> {
    (if r.kind == "thought" && TextField(r, "op") == Some("request") then IfText(TextField(r, "space"), s => Space(s)) else {})
    + (if r.kind == "action" then IfText(TextField(r, "queryId"), s => Query(s)) else {})
    + IfText(r.parentId, s => Record(s))
    + set c | c in Causes(r) :: Record(c)
  }

  function Provided(rs: seq<TraceRecord>): set<Ref> { set r, x | r in rs && x in Provides(r) :: x }

  function Asked(rs: seq<TraceRecord>): set<Ref> { set r, x | r in rs && x in Asks(r) :: x }

  // The references no record of the set answers.
  function Unresolved(rs: seq<TraceRecord>): set<Ref> { Asked(rs) - Provided(rs) }

  method UnresolvedReferences(rs: seq<TraceRecord>) returns (missing: set<Ref>)
    ensures missing == Unresolved(rs)
  {
    hide Provides, Asks;
    var have: set<Ref> := {};
    for k := 0 to |rs|
      invariant have == Provided(rs[..k])
    {
      assert rs[..k + 1] == rs[..k] + [rs[k]];
      have := have + Provides(rs[k]);
    }
    assert rs[..|rs|] == rs;
    missing := {};
    for k := 0 to |rs|
      invariant missing == Asked(rs[..k]) - have
    {
      assert rs[..k + 1] == rs[..k] + [rs[k]];
      missing := missing + (Asks(rs[k]) - have);
    }
  }

  // ---- copies ----------------------------------------------------------------------------------------------------------------------

  // The runs a copy is made from and for.
  datatype Runs = Runs(parent: string, derived: string)

  predicate StartsWith(s: string, head: string) { |s| >= |head| && s[..|head|] == head }

  // A record named by the parent's ID is in the derived run under its own.
  function Mine(runs: Runs, id: string): string {
    if StartsWith(id, runs.parent + "#") then runs.derived + "#" + id[|runs.parent| + 1..] else id
  }

  function MineAll(runs: Runs, ids: seq<string>): seq<string> { seq(|ids|, k requires 0 <= k < |ids| => Mine(runs, ids[k])) }

  function CopyOf(runs: Runs, r: TraceRecord): TraceRecord {
    r.(id := RecordId(runs.derived, r.seqNo),
       runId := runs.derived,
       payload := Obj(FieldsOf(r.payload)["copyOf" := Str(r.id)]),
       parentId := if r.parentId.None? then None else Some(Mine(runs, r.parentId.value)),
       causeIds := if r.causeIds.None? then None else Some(MineAll(runs, r.causeIds.value)))
  }

  function Seqs(rs: seq<TraceRecord>): set<nat> { set r | r in rs :: r.seqNo }

  // The first record of each sequence number, copied.
  function Firsts(runs: Runs, rs: seq<TraceRecord>): seq<TraceRecord> {
    if rs == [] then []
    else
      var k := |rs| - 1;
      Firsts(runs, rs[..k]) + if rs[k].seqNo in Seqs(rs[..k]) then [] else [CopyOf(runs, rs[k])]
  }

  function CopiesOf(runs: Runs, found: seq<TraceRecord>): seq<TraceRecord> { Firsts(runs, Sort(BySeq, found)) }

  method MakeCopies(runs: Runs, found: seq<TraceRecord>) returns (out: seq<TraceRecord>)
    ensures out == CopiesOf(runs, found)
  {
    hide CopyOf;
    var sorted := Sort(BySeq, found);
    var seen: set<nat> := {};
    out := [];
    for k := 0 to |sorted|
      invariant out == Firsts(runs, sorted[..k]) && seen == Seqs(sorted[..k])
    {
      var r := sorted[k];
      assert sorted[..k + 1][..k] == sorted[..k];
      SeqsMore(sorted[..k], r);
      assert sorted[..k + 1] == sorted[..k] + [r];
      if r.seqNo !in seen {
        seen := seen + {r.seqNo};
        out := out + [CopyOf(runs, r)];
      }
    }
    assert sorted[..|sorted|] == sorted;
  }

  lemma SeqsMore(rs: seq<TraceRecord>, r: TraceRecord)
    ensures Seqs(rs + [r]) == Seqs(rs) + {r.seqNo}
  {
    assert (rs + [r])[|rs|] == r;
    forall x | x in rs ensures x in rs + [r] {}
  }

  ghost predicate SeqsRise(rs: seq<TraceRecord>) { forall i, j :: 0 <= i < j < |rs| ==> rs[i].seqNo < rs[j].seqNo }

  // Each is the copy of a record of `found`, with its number.
  ghost predicate CopiesFrom(runs: Runs, copies: seq<TraceRecord>, found: seq<TraceRecord>) {
    forall c :: c in copies ==> exists r :: r in found && c == CopyOf(runs, r)
  }

  lemma {:induction false} FirstsAre(runs: Runs, rs: seq<TraceRecord>)
    requires SortedBy(BySeq, rs)
    ensures SeqsRise(Firsts(runs, rs)) && Seqs(Firsts(runs, rs)) == Seqs(rs) && CopiesFrom(runs, Firsts(runs, rs), rs)
  {
    if rs != [] {
      var k := |rs| - 1;
      var before, r := rs[..k], rs[k];
      FirstsAre(runs, before);
      assert rs == before + [r];
      SeqsMore(before, r);
      var out := Firsts(runs, before);
      forall c | c in out ensures c.seqNo <= r.seqNo {
        assert c.seqNo in Seqs(before);
      }
      hide CopiesFrom;
      assert CopiesFrom(runs, Firsts(runs, rs), rs) by { CopiesMore(runs, out, before, r); }
      SeqsMore(out, CopyOf(runs, r));
      assert r.seqNo in Seqs(before) ==> out + [] == out;
      RisesMore(out, CopyOf(runs, r));
    }
  }

  lemma RisesMore(out: seq<TraceRecord>, c: TraceRecord)
    requires SeqsRise(out) && (forall x :: x in out ==> x.seqNo <= c.seqNo)
    ensures c.seqNo !in Seqs(out) ==> SeqsRise(out + [c])
  {
  }

  lemma CopiesMore(runs: Runs, out: seq<TraceRecord>, before: seq<TraceRecord>, r: TraceRecord)
    requires CopiesFrom(runs, out, before)
    ensures CopiesFrom(runs, out, before + [r]) && CopiesFrom(runs, out + [CopyOf(runs, r)], before + [r])
    ensures CopiesFrom(runs, out + [], before + [r])
  {
    hide CopyOf;
    assert (before + [r])[|before|] == r;
    forall x | x in before ensures x in before + [r] {}
    assert out + [] == out;
  }

  lemma CopiesAre(runs: Runs, found: seq<TraceRecord>)
    ensures var out := CopiesOf(runs, found);
      SeqsRise(out) && Seqs(out) == Seqs(found) && CopiesFrom(runs, out, found)
  {
    hide CopyOf, Firsts;
    assert TotalOrder(BySeq);
    SortIsSorted(BySeq, found);
    SortedSameElements(BySeq, found);
    FirstsAre(runs, Sort(BySeq, found));
  }

  // ---- completing a window -------------------------------------------------------------------------------------------------------------

  const ROUNDS := 8

  // Those that are not there yet.
  function Without(rs: seq<TraceRecord>, have: set<nat>): seq<TraceRecord> {
    if rs == [] then []
    else Without(rs[..|rs| - 1], have) + if rs[|rs| - 1].seqNo in have then [] else [rs[|rs| - 1]]
  }

  lemma {:induction false} WithoutHas(rs: seq<TraceRecord>, have: set<nat>)
    ensures forall r :: r in Without(rs, have) <==> r in rs && r.seqNo !in have
  {
    if rs != [] {
      WithoutHas(rs[..|rs| - 1], have);
      assert rs == rs[..|rs| - 1] + [rs[|rs| - 1]];
    }
  }

  // The copies after so many more rounds. `find` is the read of the parent.
  function Completed(runs: Runs, records: seq<TraceRecord>, find: set<Ref> -> seq<TraceRecord>, copies: seq<TraceRecord>, rounds: nat):
    seq<TraceRecord>
    decreases rounds
  {
    var need := Unresolved(copies + records);
    if rounds == 0 || need == {} then copies
    else
      var found := Without(find(need), Seqs(copies + records));
      if found == [] then copies else Completed(runs, records, find, copies + CopiesOf(runs, found), rounds - 1)
  }

  datatype Window = Window(copies: seq<TraceRecord>, unresolved: set<Ref>)

  function CompletedWindow(runs: Runs, records: seq<TraceRecord>, find: set<Ref> -> seq<TraceRecord>): Window {
    var copies := Completed(runs, records, find, [], ROUNDS);
    Window(Sort(BySeq, copies), Unresolved(copies + records))
  }

  method CompleteReferences(runs: Runs, records: seq<TraceRecord>, find: set<Ref> -> seq<TraceRecord>) returns (w: Window)
    ensures w == CompletedWindow(runs, records, find)
  {
    hide Unresolved, Without, CopiesOf, Sort;
    var copies: seq<TraceRecord> := [];
    var have := Seqs(records);
    var all := records;
    assert [] + records == records;
    var unresolved := UnresolvedReferences(all);
    var round := 0;
    while round < ROUNDS
      invariant 0 <= round <= ROUNDS && all == copies + records && have == Seqs(all) && unresolved == Unresolved(all)
      invariant Completed(runs, records, find, copies, ROUNDS - round) == Completed(runs, records, find, [], ROUNDS)
    {
      if unresolved == {} { break; }
      var found := NotHad(find(unresolved), have);
      if found == [] { break; }
      var added := MakeCopies(runs, found);
      SeqsJoin(added, all);
      SeqsSwap(copies, added, records);
      have := have + Seqs(added);
      copies := copies + added;
      all := copies + records;
      unresolved := UnresolvedReferences(all);
      round := round + 1;
    }
    w := Window(Sort(BySeq, copies), unresolved);
  }

  method NotHad(rs: seq<TraceRecord>, have: set<nat>) returns (out: seq<TraceRecord>)
    ensures out == Without(rs, have)
  {
    out := [];
    for k := 0 to |rs|
      invariant out == Without(rs[..k], have)
    {
      assert rs[..k + 1][..k] == rs[..k];
      if rs[k].seqNo !in have { out := out + [rs[k]]; }
    }
    assert rs[..|rs|] == rs;
  }

  lemma SeqsJoin(a: seq<TraceRecord>, b: seq<TraceRecord>)
    ensures Seqs(a + b) == Seqs(a) + Seqs(b)
  {
    forall x ensures x in a + b <==> x in a || x in b {}
  }

  lemma SeqsSwap(copies: seq<TraceRecord>, added: seq<TraceRecord>, records: seq<TraceRecord>)
    ensures Seqs(copies + added + records) == Seqs(copies + records) + Seqs(added)
  {
    SeqsJoin(copies + added, records);
    SeqsJoin(copies, added);
    SeqsJoin(copies, records);
  }

  // ---- what completing gives, whatever the parent answers ---------------------------------------------------------------------------------

  // No two have the same number, and none has one of the window's.
  ghost predicate Apart(copies: seq<TraceRecord>, records: seq<TraceRecord>) {
    && Numbers(copies)
    && Seqs(copies) !! Seqs(records)
  }

  lemma ApartMore(copies: seq<TraceRecord>, added: seq<TraceRecord>, records: seq<TraceRecord>)
    requires Apart(copies, records) && SeqsRise(added) && Seqs(added) !! Seqs(copies + records)
    ensures Apart(copies + added, records)
  {
    SeqsJoin(copies, records);
    SeqsJoin(copies, added);
    var all := copies + added;
    forall i, j | 0 <= i < j < |all| ensures all[i].seqNo != all[j].seqNo {
      if i < |copies| <= j {
        assert copies[i].seqNo in Seqs(copies) && added[j - |copies|].seqNo in Seqs(added);
      }
    }
  }

  lemma {:induction false} CompletedApart(runs: Runs, records: seq<TraceRecord>, find: set<Ref> -> seq<TraceRecord>,
                                          copies: seq<TraceRecord>, rounds: nat)
    requires Apart(copies, records)
    ensures Apart(Completed(runs, records, find, copies, rounds), records)
    decreases rounds
  {
    hide Apart, Unresolved, CopiesOf, SeqsRise, Without, Seqs;
    var need := Unresolved(copies + records);
    if rounds > 0 && need != {} {
      var found := Without(find(need), Seqs(copies + records));
      if found != [] {
        CopiesAre(runs, found);
        FoundIsNew(find(need), copies + records);
        ApartMore(copies, CopiesOf(runs, found), records);
        CompletedApart(runs, records, find, copies + CopiesOf(runs, found), rounds - 1);
      }
    }
  }

  lemma FoundIsNew(answer: seq<TraceRecord>, all: seq<TraceRecord>)
    ensures Seqs(Without(answer, Seqs(all))) !! Seqs(all)
  {
    WithoutHas(answer, Seqs(all));
    hide Without;
  }

  // Whatever the parent answers: the copies come in the order of their numbers, each number once and none of the window's, and
  // what is reported unresolved is just what the copies and the window's records leave unanswered.
  lemma CopiesFitTheWindow(runs: Runs, records: seq<TraceRecord>, find: set<Ref> -> seq<TraceRecord>)
    ensures var w := CompletedWindow(runs, records, find);
      SeqsRise(w.copies) && Seqs(w.copies) !! Seqs(records) && w.unresolved == Unresolved(w.copies + records)
  {
    var copies := Completed(runs, records, find, [], ROUNDS);
    CompletedApart(runs, records, find, [], ROUNDS);
    hide Completed;
    SortedRises(copies);
    SortedSameElements(BySeq, copies);
    SameUnresolved(Sort(BySeq, copies), copies, records);
    hide Sort;
    forall x ensures x in Sort(BySeq, copies) <==> x in copies {}
  }

  lemma SortedRises(copies: seq<TraceRecord>)
    requires Numbers(copies)
    ensures SeqsRise(Sort(BySeq, copies)) && TotalOrder(BySeq)
  {
    assert TotalOrder(BySeq);
    SortIsSorted(BySeq, copies);
    SortedSameElements(BySeq, copies);
    var s := Sort(BySeq, copies);
    hide Sort, TotalOrder;
    forall i, j | 0 <= i < j < |s| ensures s[i].seqNo < s[j].seqNo {
      assert BySeq(s[i], s[j]);
      TwoOfOne(s, copies, i, j);
    }
  }

  // Two places of a sequence are two places of its rearrangement.
  lemma TwoOfOne(s: seq<TraceRecord>, t: seq<TraceRecord>, i: nat, j: nat)
    requires multiset(s) == multiset(t) && i < j < |s| && Numbers(t)
    ensures s[i].seqNo != s[j].seqNo
  {
    assert s[i] in multiset(t) && s[j] in multiset(t);
    OnceEach(t, s[i]);
    TwiceAt(s, i, j);
    SameNumber(t, s[i], s[j]);
  }

  // Every record has a number of its own.
  ghost predicate Numbers(t: seq<TraceRecord>) { forall k, l :: 0 <= k < l < |t| ==> t[k].seqNo != t[l].seqNo }

  lemma {:induction false} OnceEach(t: seq<TraceRecord>, x: TraceRecord)
    requires Numbers(t)
    ensures multiset(t)[x] <= 1
  {
    if t != [] {
      var last := |t| - 1;
      OnceEach(t[..last], x);
      assert t == t[..last] + [t[last]];
      assert x in t[..last] ==> x.seqNo != t[last].seqNo;
    }
  }

  lemma TwiceAt(s: seq<TraceRecord>, i: nat, j: nat)
    requires i < j < |s|
    ensures s[i] == s[j] ==> multiset(s)[s[i]] >= 2
  {
    assert s == s[..i] + [s[i]] + s[i + 1..j] + [s[j]] + s[j + 1..];
  }

  lemma SameNumber(t: seq<TraceRecord>, a: TraceRecord, b: TraceRecord)
    requires Numbers(t) && a in t && b in t
    ensures a.seqNo == b.seqNo ==> a == b
  {
  }

  lemma SameUnresolved(a: seq<TraceRecord>, b: seq<TraceRecord>, records: seq<TraceRecord>)
    requires forall x :: x in a <==> x in b
    ensures Unresolved(a + records) == Unresolved(b + records)
  {
    hide Provides, Asks;
    forall x ensures x in a + records <==> x in b + records {}
  }

  // ---- when the parent answers ---------------------------------------------------------------------------------------------------------------

  // The read of the parent: of what may be asked for it gives only records that answer, and at least one for each that is not of the
  // window. What the window's records answer themselves is never asked for.
  ghost predicate Answers(runs: Runs, records: seq<TraceRecord>, find: set<Ref> -> seq<TraceRecord>, parent: seq<TraceRecord>) {
    && Numbers(parent)
    && (forall need, r :: MayAsk(runs, records, parent, need) && r in find(need) ==>
          r in parent && Provides(CopyOf(runs, r)) * need != {})
    && (forall need, x :: MayAsk(runs, records, parent, need) && x in need ==> Answered(runs, records, find(need), x))
  }

  // References the window leaves unanswered, asked for by its records or by a copy.
  ghost predicate MayAsk(runs: Runs, records: seq<TraceRecord>, parent: seq<TraceRecord>, need: set<Ref>) {
    forall x :: x in need ==> x !in Provided(records) && IsAsked(runs, records, parent, x)
  }

  ghost predicate IsAsked(runs: Runs, records: seq<TraceRecord>, parent: seq<TraceRecord>, x: Ref) {
    x in Asked(records) || exists r :: r in parent && x in Asks(CopyOf(runs, r))
  }

  ghost predicate Answered(runs: Runs, records: seq<TraceRecord>, answer: seq<TraceRecord>, x: Ref) {
    exists r :: r in answer && r.seqNo !in Seqs(records) && x in Provides(CopyOf(runs, r))
  }

  // A chain of references from the window into the parent: the window asks for its first record, and each asks for the next, by
  // references the window does not answer.
  ghost predicate Chain(runs: Runs, records: seq<TraceRecord>, parent: seq<TraceRecord>, chain: seq<TraceRecord>) {
    && (forall k :: 0 <= k < |chain| ==> chain[k] in parent)
    && (chain != [] ==> Asked(records) * Provides(CopyOf(runs, chain[0])) - Provided(records) != {})
    && (forall k :: 0 < k < |chain| ==> Links(runs, records, chain[k - 1], chain[k]))
  }

  ghost predicate Links(runs: Runs, records: seq<TraceRecord>, from: TraceRecord, to: TraceRecord) {
    Asks(CopyOf(runs, from)) * Provides(CopyOf(runs, to)) - Provided(records) != {}
  }

  // A chain of n records, each another and all copied, whose end asks for x.
  ghost predicate Reaches(runs: Runs, records: seq<TraceRecord>, parent: seq<TraceRecord>, copies: seq<TraceRecord>, n: nat, x: Ref) {
    if n == 0 then x in Asked(records)
    else exists chain :: |chain| == n && ChainOf(runs, records, parent, copies, chain) && x in Asks(CopyOf(runs, chain[n - 1]))
  }

  ghost predicate ChainOf(runs: Runs, records: seq<TraceRecord>, parent: seq<TraceRecord>, copies: seq<TraceRecord>, chain: seq<TraceRecord>) {
    Chain(runs, records, parent, chain) && Numbers(chain) && Seqs(chain) <= Seqs(copies)
  }

  lemma ChainGrows(runs: Runs, records: seq<TraceRecord>, parent: seq<TraceRecord>, copies: seq<TraceRecord>, n: nat, x: Ref, r: TraceRecord)
    returns (longer: seq<TraceRecord>)
    requires Reaches(runs, records, parent, copies, n, x) && r in parent && x in Provides(CopyOf(runs, r)) && x !in Provided(records)
    requires r.seqNo !in Seqs(copies)
    ensures |longer| == n + 1 && Chain(runs, records, parent, longer) && longer[n] == r
    ensures Numbers(longer) && Seqs(longer) <= Seqs(copies) + {r.seqNo}
  {
    hide CopyOf, Asks, Provides, Asked, Provided, Seqs;
    if n == 0 {
      assert x in Asked(records) * Provides(CopyOf(runs, r)) - Provided(records);
      longer := [r];
      SeqsMore([], r);
      NoSeqs();
      assert [] + [r] == [r];
    } else {
      var chain :| |chain| == n && ChainOf(runs, records, parent, copies, chain) && x in Asks(CopyOf(runs, chain[n - 1]));
      assert x in Asks(CopyOf(runs, chain[n - 1])) * Provides(CopyOf(runs, r)) - Provided(records);
      longer := chain + [r];
      SeqsMore(chain, r);
      NumbersMore(chain, r);
    }
  }

  lemma NoSeqs()
    ensures Seqs([]) == {}
  {
  }

  lemma NumbersMore(chain: seq<TraceRecord>, r: TraceRecord)
    requires Numbers(chain) && r.seqNo !in Seqs(chain)
    ensures Numbers(chain + [r])
  {
    assert forall k :: 0 <= k < |chain| ==> chain[k].seqNo in Seqs(chain) && (chain + [r])[k] == chain[k];
  }

  // All copies are of the parent's records.
  ghost predicate FromParent(runs: Runs, copies: seq<TraceRecord>, parent: seq<TraceRecord>) { CopiesFrom(runs, copies, parent) }

  lemma UnresolvedMayBeAsked(runs: Runs, records: seq<TraceRecord>, parent: seq<TraceRecord>, copies: seq<TraceRecord>)
    requires FromParent(runs, copies, parent)
    ensures MayAsk(runs, records, parent, Unresolved(copies + records))
  {
    hide CopyOf, Asks, Provides, Unresolved, IsAsked, Asked, FromParent;
    forall x | x in Unresolved(copies + records) ensures x !in Provided(records) && IsAsked(runs, records, parent, x) {
      UnresolvedIsAsked(runs, records, parent, copies, x);
      UnresolvedMeans(copies + records, x);
      forall r | r in records ensures r in copies + records {}
    }
  }

  lemma UnresolvedIsAsked(runs: Runs, records: seq<TraceRecord>, parent: seq<TraceRecord>, copies: seq<TraceRecord>, x: Ref)
    requires FromParent(runs, copies, parent) && x in Unresolved(copies + records)
    ensures IsAsked(runs, records, parent, x)
  {
    hide CopyOf, Asks, Provides;
    var a :| a in copies + records && x in Asks(a);
    if a in copies {
      var r :| r in parent && a == CopyOf(runs, r);
      assert x in Asks(CopyOf(runs, r));
    } else {
      assert a in records;
    }
  }

  // What is unresolved is asked for by someone, and by no one answered.
  lemma UnresolvedMeans(all: seq<TraceRecord>, x: Ref)
    ensures x in Unresolved(all) <==> (exists a :: a in all && x in Asks(a)) && (forall a :: a in all ==> x !in Provides(a))
  {
    hide Asks, Provides;
  }

  // The answer to what is unresolved is among the records not yet there.
  lemma AnswerIsFound(runs: Runs, records: seq<TraceRecord>, find: set<Ref> -> seq<TraceRecord>, parent: seq<TraceRecord>,
                      copies: seq<TraceRecord>, x: Ref) returns (r: TraceRecord)
    requires Answers(runs, records, find, parent) && FromParent(runs, copies, parent) && x in Unresolved(copies + records)
    ensures r in parent && x in Provides(CopyOf(runs, r))
    ensures r in Without(find(Unresolved(copies + records)), Seqs(copies + records)) && r.seqNo !in Seqs(copies)
  {
    var all := copies + records;
    var need := Unresolved(all);
    UnresolvedMayBeAsked(runs, records, parent, copies);
    UnresolvedMeans(all, x);
    hide CopyOf, Asks, Provides, Unresolved, Asked, Provided, MayAsk;
    assert Answered(runs, records, find(need), x);
    r :| r in find(need) && r.seqNo !in Seqs(records) && x in Provides(CopyOf(runs, r));
    assert r in parent;
    WithoutHas(find(need), Seqs(all));
    hide Without;
    SeqsJoin(copies, records);
    CopiedAnswers(runs, copies, parent, r);
    assert forall c :: c in copies ==> x !in Provides(c) by { forall c | c in copies ensures c in all {} }
  }

  // A record of a number that is copied already is copied itself.
  lemma CopiedAnswers(runs: Runs, copies: seq<TraceRecord>, parent: seq<TraceRecord>, r: TraceRecord)
    requires FromParent(runs, copies, parent) && Numbers(parent) && r in parent
    ensures r.seqNo in Seqs(copies) ==> CopyOf(runs, r) in copies
  {
    if r.seqNo in Seqs(copies) {
      var c :| c in copies && c.seqNo == r.seqNo;
      var q :| q in parent && c == CopyOf(runs, q);
      CopyKeepsNumber(runs, q);
      SameNumber(parent, q, r);
    }
  }

  lemma CopyKeepsNumber(runs: Runs, r: TraceRecord)
    ensures CopyOf(runs, r).seqNo == r.seqNo
  {
  }

  // One more round: what is still unresolved is asked for by a record the round brought, one hop further on.
  lemma OneRoundFurther(runs: Runs, records: seq<TraceRecord>, find: set<Ref> -> seq<TraceRecord>, parent: seq<TraceRecord>,
                        copies: seq<TraceRecord>, n: nat, x: Ref)
    requires Answers(runs, records, find, parent) && FromParent(runs, copies, parent)
    requires forall y :: y in Unresolved(copies + records) ==> Reaches(runs, records, parent, copies, n, y)
    requires x in Unresolved(copies + CopiesOf(runs, Without(find(Unresolved(copies + records)), Seqs(copies + records))) + records)
    ensures var added := CopiesOf(runs, Without(find(Unresolved(copies + records)), Seqs(copies + records)));
      Reaches(runs, records, parent, copies + added, n + 1, x)
  {
    var all := copies + records;
    var need := Unresolved(all);
    var found := Without(find(need), Seqs(all));
    var added := CopiesOf(runs, found);
    CopiesAre(runs, found);
    WithoutHas(find(need), Seqs(all));
    UnresolvedMeans(copies + added + records, x);
    UnresolvedMeans(all, x);
    UnresolvedMayBeAsked(runs, records, parent, copies);
    FoundFromParent(runs, records, find, parent, need, Seqs(all));
    hide CopyOf, Asks, Provides, Unresolved, Asked, Provided, MayAsk, Without, CopiesOf, Reaches, Chain;
    if x in need { NeedIsMet(runs, records, find, parent, copies, x); }
    assert x !in need;
    var a :| a in copies + added + records && x in Asks(a);
    assert a in added by {
      if a in copies + records { AskedIsUnresolved(copies, added, records, x, a); }
    }
    var r :| r in found && a == CopyOf(runs, r);
    assert r in find(need) && r in parent;
    assert Provides(CopyOf(runs, r)) * need != {};
    var y :| y in Provides(CopyOf(runs, r)) * need;
    UnresolvedMeans(all, y);
    assert y !in Provided(records) by { NotProvided(runs, records, parent, need, y); }
    FoundIsNewOne(find(need), copies, records, r);
    var chain := ChainGrows(runs, records, parent, copies, n, y, r);
    SeqsJoin(copies, added);
    SeqsHas(found, r);
    ReachesBy(runs, records, parent, copies + added, chain, x);
  }

  lemma FoundIsNewOne(answer: seq<TraceRecord>, copies: seq<TraceRecord>, records: seq<TraceRecord>, r: TraceRecord)
    requires r in Without(answer, Seqs(copies + records))
    ensures r.seqNo !in Seqs(copies)
  {
    WithoutHas(answer, Seqs(copies + records));
    SeqsJoin(copies, records);
    hide Without, Seqs;
  }

  lemma SeqsHas(rs: seq<TraceRecord>, r: TraceRecord)
    requires r in rs
    ensures r.seqNo in Seqs(rs)
  {
  }

  lemma NotProvided(runs: Runs, records: seq<TraceRecord>, parent: seq<TraceRecord>, need: set<Ref>, x: Ref)
    requires MayAsk(runs, records, parent, need) && x in need
    ensures x !in Provided(records)
  {
  }

  // What a round asks for is answered after it.
  lemma NeedIsMet(runs: Runs, records: seq<TraceRecord>, find: set<Ref> -> seq<TraceRecord>, parent: seq<TraceRecord>,
                  copies: seq<TraceRecord>, x: Ref)
    requires Answers(runs, records, find, parent) && FromParent(runs, copies, parent) && x in Unresolved(copies + records)
    ensures x !in Unresolved(copies + CopiesOf(runs, Without(find(Unresolved(copies + records)), Seqs(copies + records))) + records)
  {
    var need, have := Unresolved(copies + records), Seqs(copies + records);
    var found := Without(find(need), have);
    var added := CopiesOf(runs, found);
    CopiesAre(runs, found);
    UnresolvedMayBeAsked(runs, records, parent, copies);
    FoundFromParent(runs, records, find, parent, need, have);
    UnresolvedMeans(copies + added + records, x);
    var r := AnswerIsFound(runs, records, find, parent, copies, x);
    hide CopyOf, Asks, Provides, Unresolved, Without, CopiesOf, Seqs;
    FoundIsCopied(runs, added, found, parent, r);
    assert CopyOf(runs, r) in copies + added + records;
  }

  lemma ReachesBy(runs: Runs, records: seq<TraceRecord>, parent: seq<TraceRecord>, copies: seq<TraceRecord>, chain: seq<TraceRecord>, x: Ref)
    requires chain != [] && ChainOf(runs, records, parent, copies, chain) && x in Asks(CopyOf(runs, chain[|chain| - 1]))
    ensures Reaches(runs, records, parent, copies, |chain|, x)
  {
    hide CopyOf, Asks, ChainOf;
  }

  lemma AskedIsUnresolved(copies: seq<TraceRecord>, added: seq<TraceRecord>, records: seq<TraceRecord>, x: Ref, a: TraceRecord)
    requires a in copies + records && x in Asks(a) && x in Unresolved(copies + added + records)
    ensures x in Unresolved(copies + records)
  {
    UnresolvedMeans(copies + added + records, x);
    UnresolvedMeans(copies + records, x);
    hide Asks, Provides, Unresolved;
    forall b | b in copies + records ensures b in copies + added + records {}
  }

  lemma FoundFromParent(runs: Runs, records: seq<TraceRecord>, find: set<Ref> -> seq<TraceRecord>, parent: seq<TraceRecord>,
                        need: set<Ref>, have: set<nat>)
    requires Answers(runs, records, find, parent) && MayAsk(runs, records, parent, need)
    ensures forall r :: r in Without(find(need), have) ==> r in parent
  {
    WithoutHas(find(need), have);
    hide Without, CopyOf, Provides, Asks, MayAsk;
  }

  // With numbers of their own, every record found is copied.
  lemma FoundIsCopied(runs: Runs, added: seq<TraceRecord>, found: seq<TraceRecord>, parent: seq<TraceRecord>, r: TraceRecord)
    requires Numbers(parent) && (forall q :: q in found ==> q in parent) && r in found
    requires CopiesFrom(runs, added, found) && Seqs(added) == Seqs(found)
    ensures CopyOf(runs, r) in added
  {
    assert r.seqNo in Seqs(added);
    var c :| c in added && c.seqNo == r.seqNo;
    var q :| q in found && c == CopyOf(runs, q);
    SameNumber(parent, q, r);
  }

  // After n rounds without an end, what is unresolved is at the end of a chain of n.
  lemma {:induction false} LayersReach(runs: Runs, records: seq<TraceRecord>, find: set<Ref> -> seq<TraceRecord>,
                                       parent: seq<TraceRecord>, copies: seq<TraceRecord>, n: nat, rounds: nat)
    requires Answers(runs, records, find, parent) && FromParent(runs, copies, parent)
    requires forall y :: y in Unresolved(copies + records) ==> Reaches(runs, records, parent, copies, n, y)
    ensures var c := Completed(runs, records, find, copies, rounds);
      FromParent(runs, c, parent) && forall y :: y in Unresolved(c + records) ==> Reaches(runs, records, parent, c, n + rounds, y)
    decreases rounds
  {
    hide Answers, MayAsk, FromParent, Unresolved, Reaches, Without, CopiesOf, Seqs;
    UnresolvedMayBeAsked(runs, records, parent, copies);
    var need := Unresolved(copies + records);
    var found := Without(find(need), Seqs(copies + records));
    if need != {} {
      var x :| x in need;
      var r := AnswerIsFound(runs, records, find, parent, copies, x);
      assert found != [];
      if rounds > 0 {
        var more := copies + CopiesOf(runs, found);
        forall y | y in Unresolved(more + records) ensures Reaches(runs, records, parent, more, n + 1, y) {
          OneRoundFurther(runs, records, find, parent, copies, n, y);
        }
        CopiesFromParent(runs, records, find, parent, copies, need, Seqs(copies + records));
        LayersReach(runs, records, find, parent, more, n + 1, rounds - 1);
      }
    }
  }

  lemma CopiesFromParent(runs: Runs, records: seq<TraceRecord>, find: set<Ref> -> seq<TraceRecord>, parent: seq<TraceRecord>,
                         copies: seq<TraceRecord>, need: set<Ref>, have: set<nat>)
    requires Answers(runs, records, find, parent) && FromParent(runs, copies, parent) && MayAsk(runs, records, parent, need)
    ensures FromParent(runs, copies + CopiesOf(runs, Without(find(need), have)), parent)
  {
    FoundFromParent(runs, records, find, parent, need, have);
    CopiesAre(runs, Without(find(need), have));
    hide Without, CopiesOf, CopyOf, Answers, MayAsk;
  }

  // If the parent answers every reference, what stays unresolved stands at the end of a chain of more than eight records, each another:
  // a window whose chains are no longer is made self-contained, circles of references or not.
  lemma ShortChainsComplete(runs: Runs, records: seq<TraceRecord>, find: set<Ref> -> seq<TraceRecord>, parent: seq<TraceRecord>)
    requires Answers(runs, records, find, parent)
    requires forall chain :: Chain(runs, records, parent, chain) && Numbers(chain) ==> |chain| <= ROUNDS
    ensures CompletedWindow(runs, records, find).unresolved == {}
  {
    hide Unresolved, Completed, Answers, MayAsk, Chain, CopyOf, Provides, Asks;
    assert [] + records == records;
    forall y | y in Unresolved(records) ensures Reaches(runs, records, parent, [], 0, y) {
      UnresolvedMeans(records, y);
    }
    LayersReach(runs, records, find, parent, [], 0, ROUNDS);
    var c := Completed(runs, records, find, [], ROUNDS);
    if Unresolved(c + records) != {} {
      var x :| x in Unresolved(c + records);
      var r := AnswerIsFound(runs, records, find, parent, c, x);
      UnresolvedMayBeAsked(runs, records, parent, c);
      NotProvided(runs, records, parent, Unresolved(c + records), x);
      var chain := ChainGrows(runs, records, parent, c, ROUNDS, x, r);
    }
  }

  // ---- a window with references of its own ----------------------------------------------------------------------------------------------------

  function Told(runId: string, n: nat, parentId: Option<string>): TraceRecord {
    TraceRecord(RecordId(runId, n), runId, n, parentId, None, 0.0, None, None, "mind", "event", None, Null)
  }

  lemma ToldRefers(runId: string, n: nat, parentId: Option<string>)
    ensures Provides(Told(runId, n, parentId)) == {Record(RecordId(runId, n))}
    ensures Asks(Told(runId, n, parentId)) == if parentId.Some? then {Record(parentId.value)} else {}
  {
  }

  lemma PairRefers(a: TraceRecord, b: TraceRecord)
    ensures Provided([a, b]) == Provides(a) + Provides(b) && Asked([a, b]) == Asks(a) + Asks(b) && Seqs([a, b]) == {a.seqNo, b.seqNo}
  {
    hide Provides, Asks;
    assert forall r :: r in [a, b] <==> r == a || r == b;
  }

  lemma CopyRefers(runs: Runs, n: nat)
    ensures Provides(CopyOf(runs, Told(runs.parent, n, None))) == {Record(RecordId(runs.derived, n))}
    ensures Asks(CopyOf(runs, Told(runs.parent, n, None))) == {}
  {
  }

  // A window of two records: the first comes from the parent's record before the window, the second from the first. The parent is
  // asked for its record alone, and the window is complete.
  lemma InsideReferences(runs: Runs)
    ensures var r := Told(runs.parent, 0, None);
      var records := [Told(runs.derived, 1, Some(RecordId(runs.derived, 0))), Told(runs.derived, 2, Some(RecordId(runs.derived, 1)))];
      var find := (need: set<Ref>) => if Record(RecordId(runs.derived, 0)) in need then [r] else [];
      && Answers(runs, records, find, [r])
      && CompletedWindow(runs, records, find).unresolved == {}
  {
    var r := Told(runs.parent, 0, None);
    var x := Record(RecordId(runs.derived, 0));
    var a, b := Told(runs.derived, 1, Some(RecordId(runs.derived, 0))), Told(runs.derived, 2, Some(RecordId(runs.derived, 1)));
    var records := [a, b];
    var find := (need: set<Ref>) => if x in need then [r] else [];
    ToldRefers(runs.derived, 1, Some(RecordId(runs.derived, 0)));
    ToldRefers(runs.derived, 2, Some(RecordId(runs.derived, 1)));
    CopyRefers(runs, 0);
    PairRefers(a, b);
    assert a.seqNo == 1 && b.seqNo == 2 && r.seqNo == 0;
    hide Provides, Asks, CopyOf, Told, Provided, Asked, CompletedWindow, RecordId, Answers, Chain, Seqs;
    AnswersOne(runs, records, find, r, x);
    forall chain | Chain(runs, records, [r], chain) ensures |chain| <= ROUNDS { OneHop(runs, records, r, chain); }
    ShortChainsComplete(runs, records, find, [r]);
  }

  lemma OneHop(runs: Runs, records: seq<TraceRecord>, r: TraceRecord, chain: seq<TraceRecord>)
    requires Chain(runs, records, [r], chain) && Asks(CopyOf(runs, r)) == {}
    ensures |chain| <= 1
  {
    hide Provides, Asks, CopyOf, Provided, Asked;
    assert |chain| > 1 ==> !Links(runs, records, chain[0], chain[1]) by { assert |chain| > 1 ==> chain[0] == r; }
  }

  lemma AnswersOne(runs: Runs, records: seq<TraceRecord>, find: set<Ref> -> seq<TraceRecord>, r: TraceRecord, x: Ref)
    requires forall need :: find(need) == if x in need then [r] else []
    requires r.seqNo !in Seqs(records) && Provides(CopyOf(runs, r)) == {x} && Asks(CopyOf(runs, r)) == {}
    requires Asked(records) <= Provided(records) + {x}
    ensures Answers(runs, records, find, [r])
  {
    hide Provides, Asks, CopyOf, Provided, Asked, Seqs;
    forall need, y | MayAsk(runs, records, [r], need) && y in need ensures Answered(runs, records, find(need), y) {
      assert y == x && r in find(need);
    }
    forall need, q | MayAsk(runs, records, [r], need) && q in find(need) ensures q in [r] && Provides(CopyOf(runs, q)) * need != {} {
      assert q == r && x in Provides(CopyOf(runs, q)) * need;
    }
  }
}
