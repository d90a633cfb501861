// Reading the belief frames of a run: by agent, a window of ticks at a time (packages/storage/src/run-bundle.ts).
module BeliefFrames {
  import opened Wrappers
  import opened Base64
  import opened Paging

  datatype Frame = Frame(agentId: string, seqNo: nat, tick: nat, simTime: real, keyframe: bool, chunks: seq<nat>,
                         blobId: Option<string>, data: Option<seq<byte>>)

  // The frames of one agent: the counter goes up, and with it the tick.
  ghost predicate InOrder(fs: seq<Frame>) {
    forall i, j :: 0 <= i < j < |fs| ==> fs[i].seqNo < fs[j].seqNo && fs[i].tick <= fs[j].tick
  }

  function ByAgent(agentId: string): Frame -> bool { (f: Frame) => f.agentId == agentId }

  function FromTick(tick: nat): Frame -> bool { (f: Frame) => f.tick >= tick }

  function AfterSeq(n: int): Frame -> bool { (f: Frame) => f.seqNo > n }

  function Prefix<T>(xs: seq<T>, n: nat): seq<T> { if |xs| <= n then xs else xs[..n] }

  // What the store returns for one agent, from a tick on.
  function QueryFrames(fs: seq<Frame>, tick: nat, limit: nat): seq<Frame> { Prefix(Filter(FromTick(tick), fs), limit) }

  // More frames stand at one tick than a page holds, with others behind them.
  ghost predicate Stalls(fs: seq<Frame>, limit: nat) { exists a: nat :: StallsAt(fs, limit, a) }

  ghost predicate StallsAt(fs: seq<Frame>, limit: nat, a: nat) {
    0 < limit && a + limit < |fs| && fs[a].tick == fs[a + limit - 1].tick
  }

  // The first of the frames at or behind a tick.
  ghost function FirstAt(fs: seq<Frame>, tick: nat): (g: nat)
    ensures g <= |fs| && (g < |fs| ==> fs[g].tick >= tick)
    ensures forall k :: 0 <= k < g ==> fs[k].tick < tick
  {
    if fs == [] || fs[0].tick >= tick then 0 else 1 + FirstAt(fs[1..], tick)
  }

  lemma FromTickIsTail(fs: seq<Frame>, tick: nat)
    requires InOrder(fs)
    ensures Filter(FromTick(tick), fs) == fs[FirstAt(fs, tick)..]
  {
    hide Filter;
    var g := FirstAt(fs, tick);
    assert fs == fs[..g] + fs[g..];
    FilterConcat(FromTick(tick), fs[..g], fs[g..]);
    FilterNone(FromTick(tick), fs[..g]);
    FilterAll(FromTick(tick), fs[g..]);
  }

  function TickOf(fs: seq<Frame>, n: nat): nat
    requires n <= |fs|
  {
    if n == 0 then 0 else fs[n - 1].tick
  }

  function SeqOf(fs: seq<Frame>, n: nat): int
    requires n <= |fs|
  {
    if n == 0 then -1 else fs[n - 1].seqNo
  }

  // Of the frames from g to h, those behind the n first.
  lemma AddedIsTail(fs: seq<Frame>, g: nat, h: nat, n: nat)
    requires InOrder(fs) && g <= h <= |fs| && g <= n <= |fs|
    ensures Filter(AfterSeq(SeqOf(fs, n)), fs[g..h]) == if n <= h then fs[n..h] else []
  {
    hide Filter;
    var p := AfterSeq(SeqOf(fs, n));
    var m := if n <= h then n else h;
    assert fs[g..h] == fs[g..m] + fs[m..h];
    assert forall k :: g <= k < m ==> !p(fs[k]);
    assert forall k :: m <= k < h ==> p(fs[k]);
    hide AfterSeq;
    FilterConcat(p, fs[g..m], fs[m..h]);
    FilterNone(p, fs[g..m]);
    FilterAll(p, fs[m..h]);
  }

  // Where the next page starts when n frames were read.
  ghost function Start(fs: seq<Frame>, n: nat): nat
    requires n <= |fs|
  {
    if n == 0 then 0 else FirstAt(fs, fs[n - 1].tick)
  }

  lemma StartIsBefore(fs: seq<Frame>, n: nat)
    requires InOrder(fs) && n <= |fs|
    ensures Start(fs, n) <= n && (n > 0 ==> Start(fs, n) < n && fs[Start(fs, n)].tick == fs[n - 1].tick)
    ensures Start(fs, n) == FirstAt(fs, if n == 0 then 0 else fs[n - 1].tick)
  {
  }

  // Where the first stall is from a place on; behind the last frame when there is none.
  ghost function StallFrom(fs: seq<Frame>, limit: nat, a: nat): (b: nat)
    requires a <= |fs|
    ensures a <= b <= |fs| && (b < |fs| ==> StallsAt(fs, limit, b))
    ensures forall k: nat :: a <= k < b ==> !StallsAt(fs, limit, k)
    decreases |fs| - a
  {
    if a == |fs| || StallsAt(fs, limit, a) then a else StallFrom(fs, limit, a + 1)
  }

  // What is read of one agent's frames: all of them, or those up to the end of the first full page of one tick.
  ghost function AgentRead(fs: seq<Frame>, limit: nat): seq<Frame> {
    var b := StallFrom(fs, limit, 0);
    if b < |fs| then fs[..b + limit] else fs
  }

  lemma AgentReadIs(fs: seq<Frame>, limit: nat)
    ensures AgentRead(fs, limit) <= fs
    ensures AgentRead(fs, limit) == fs <==> !Stalls(fs, limit)
  {
    var b := StallFrom(fs, limit, 0);
    assert b == |fs| ==> forall k: nat :: StallsAt(fs, limit, k) ==> k < b;
  }

  // The first stall begins where its tick begins.
  lemma StallStarts(fs: seq<Frame>, limit: nat)
    requires InOrder(fs)
    ensures var b := StallFrom(fs, limit, 0); b < |fs| ==> FirstStall(fs, limit, b) && b + limit < |fs|
  {
    var b := StallFrom(fs, limit, 0);
    if 0 < b < |fs| { StallEarlier(fs, limit, b); }
  }

  lemma StallEarlier(fs: seq<Frame>, limit: nat, b: nat)
    requires InOrder(fs) && 0 < b && StallsAt(fs, limit, b)
    ensures fs[b - 1].tick == fs[b].tick ==> StallsAt(fs, limit, b - 1)
  {
    TicksBetween(fs, b - 1, b - 1 + limit - 1, b + limit - 1);
  }

  // Reading never gets past a stall.
  lemma StallHolds(fs: seq<Frame>, limit: nat, b: nat, n: nat)
    requires InOrder(fs) && StallsAt(fs, limit, b) && (b == 0 || fs[b - 1].tick < fs[b].tick) && n <= b + limit
    ensures Start(fs, n) <= b
  {
    if n > b { assert fs[n - 1].tick == fs[b].tick; }
  }

  // How far the page reaches that is read when n frames are there.
  ghost function PageEnd(fs: seq<Frame>, limit: nat, n: nat): (h: nat)
    requires n <= |fs|
    ensures h <= |fs|
  {
    if |fs| - Start(fs, n) <= limit then |fs| else Start(fs, n) + limit
  }

  lemma PageIs(fs: seq<Frame>, limit: nat, n: nat)
    requires InOrder(fs) && n <= |fs|
    ensures var g, h, page := Start(fs, n), PageEnd(fs, limit, n), QueryFrames(fs, TickOf(fs, n), limit);
      && g <= n && g <= h && page == fs[g..h]
      && (if h < g + limit then h == |fs| else h == g + limit)
      && (g < h ==> TickOf(fs, h) == fs[h - 1].tick && SeqOf(fs, h) == fs[h - 1].seqNo)
  {
    hide *;
    StartIsBefore(fs, n);
    PageEndIs(fs, limit, n);
    PageSlice(fs, limit, n);
    LastOfPage(fs, PageEnd(fs, limit, n));
  }

  lemma PageEndIs(fs: seq<Frame>, limit: nat, n: nat)
    requires n <= |fs| && Start(fs, n) <= n
    ensures var g, h := Start(fs, n), PageEnd(fs, limit, n);
      g <= h && (if h < g + limit then h == |fs| else h == g + limit) && h == if |fs| - g <= limit then |fs| else g + limit
  {
    hide Start;
  }

  lemma PageSlice(fs: seq<Frame>, limit: nat, n: nat)
    requires InOrder(fs) && n <= |fs| && Start(fs, n) <= PageEnd(fs, limit, n)
    ensures QueryFrames(fs, TickOf(fs, n), limit) == fs[Start(fs, n)..PageEnd(fs, limit, n)]
  {
    StartIsBefore(fs, n);
    StartOfTick(fs, n);
    FromTickIsTail(fs, TickOf(fs, n));
    PrefixOfTail(fs, Start(fs, n), limit);
    hide FirstAt, Filter, InOrder, FromTick, Prefix, Start, TickOf;
  }

  lemma StartOfTick(fs: seq<Frame>, n: nat)
    requires InOrder(fs) && n <= |fs|
    ensures FirstAt(fs, TickOf(fs, n)) == Start(fs, n)
  {
    StartIsBefore(fs, n);
  }

  lemma LastOfPage(fs: seq<Frame>, h: nat)
    requires h <= |fs|
    ensures h > 0 ==> TickOf(fs, h) == fs[h - 1].tick && SeqOf(fs, h) == fs[h - 1].seqNo
  {
  }

  lemma PrefixOfTail(fs: seq<Frame>, g: nat, limit: nat)
    requires g <= |fs|
    ensures Prefix(fs[g..], limit) == fs[g..if |fs| - g <= limit then |fs| else g + limit]
  {
  }

  // It brings what is behind the n; a page that is not full ends with the last frame, and so does a full one that brings nothing but
  // where it is a stall.
  lemma OnePage(fs: seq<Frame>, limit: nat, n: nat)
    requires InOrder(fs) && n <= |fs| && limit > 0
    ensures var page, h := QueryFrames(fs, TickOf(fs, n), limit), PageEnd(fs, limit, n);
      && Filter(AfterSeq(SeqOf(fs, n)), page) == (if n <= h then fs[n..h] else [])
      && (page != [] ==> TickOf(fs, h) == page[|page| - 1].tick && SeqOf(fs, h) == page[|page| - 1].seqNo)
      && (|page| < limit ==> n <= h == |fs|)
      && (|page| == limit && h <= n && n < |fs| ==> StallsAt(fs, limit, Start(fs, n)) && Start(fs, n) + limit <= n)
      && |page| <= limit
  {
    hide *;
    PageIs(fs, limit, n);
    var g, h, page := Start(fs, n), PageEnd(fs, limit, n), QueryFrames(fs, TickOf(fs, n), limit);
    assert |page| == h - g;
    AddedIsTail(fs, g, h, n);
    if g < h { assert page[|page| - 1] == fs[h - 1]; }
    if g + limit <= n < |fs| { FullPageStalls(fs, limit, g, n); }
  }

  // It does not reach past a stall, and is full there.
  lemma PageAtStall(fs: seq<Frame>, limit: nat, n: nat, b: nat)
    requires InOrder(fs) && n <= |fs| && FirstStall(fs, limit, b) && n <= b + limit
    ensures PageEnd(fs, limit, n) <= b + limit && |QueryFrames(fs, TickOf(fs, n), limit)| == limit
  {
    PageIs(fs, limit, n);
    StallHolds(fs, limit, b, n);
    hide FirstAt, InOrder, Start, QueryFrames;
  }

  ghost predicate FirstStall(fs: seq<Frame>, limit: nat, b: nat) {
    StallsAt(fs, limit, b) && (b == 0 || fs[b - 1].tick < fs[b].tick)
  }

  lemma NotBeforeStall(fs: seq<Frame>, limit: nat, g: nat)
    ensures StallsAt(fs, limit, g) ==> g >= StallFrom(fs, limit, 0)
  {
  }

  // One page behind the n frames that are there; after it there are m.
  method ReadPage(fs: seq<Frame>, limit: nat, tick: nat, lastSeq: int, ghost n: nat)
    returns (added: seq<Frame>, over: bool, nextTick: nat, nextSeq: int, ghost m: nat)
    requires InOrder(fs) && limit > 0 && n <= |fs| && tick == TickOf(fs, n) && lastSeq == SeqOf(fs, n)
    requires n <= StallFrom(fs, limit, 0) + limit
    ensures n <= m <= |fs| && added == fs[n..m] && m <= StallFrom(fs, limit, 0) + limit
    ensures over ==> m == |fs| || m == StallFrom(fs, limit, 0) + limit
    ensures !over ==> n < m && nextTick == TickOf(fs, m) && nextSeq == SeqOf(fs, m)
  {
    PageAdds(fs, limit, n);
    PageStops(fs, limit, n);
    hide *;
    var page := QueryFrames(fs, tick, limit);
    added := Filter(AfterSeq(lastSeq), page);
    m := PageReach(fs, limit, n);
    over := |page| < limit || |added| == 0;
    nextTick, nextSeq := tick, lastSeq;
    if !over {
      var last := page[|page| - 1];
      nextTick, nextSeq := last.tick, last.seqNo;
    }
  }

  // How many frames there are after a page.
  ghost function PageReach(fs: seq<Frame>, limit: nat, n: nat): (m: nat)
    requires n <= |fs|
    ensures n <= m <= |fs|
  {
    if n <= PageEnd(fs, limit, n) then PageEnd(fs, limit, n) else n
  }

  // What a page brings, and where the next one starts.
  lemma PageAdds(fs: seq<Frame>, limit: nat, n: nat)
    requires InOrder(fs) && limit > 0 && n <= |fs|
    ensures var page, m := QueryFrames(fs, TickOf(fs, n), limit), PageReach(fs, limit, n);
      var added := Filter(AfterSeq(SeqOf(fs, n)), page);
      && added == fs[n..m] && (added == [] <==> PageEnd(fs, limit, n) <= n)
      && (added != [] && page != [] ==> TickOf(fs, m) == page[|page| - 1].tick && SeqOf(fs, m) == page[|page| - 1].seqNo)
  {
    OnePage(fs, limit, n);
    hide PageEnd, QueryFrames, Filter, TickOf, SeqOf, AfterSeq, InOrder, StallsAt, Start;
    assert fs[n..n] == [];
  }

  // What it means that a page is short or brings nothing.
  lemma PageStops(fs: seq<Frame>, limit: nat, n: nat)
    requires InOrder(fs) && limit > 0 && n <= |fs| && n <= StallFrom(fs, limit, 0) + limit
    ensures var size, m, b := |QueryFrames(fs, TickOf(fs, n), limit)|, PageReach(fs, limit, n), StallFrom(fs, limit, 0);
      && size <= limit && m <= b + limit
      && (size < limit || PageEnd(fs, limit, n) <= n ==> m == |fs| || m == b + limit)
  {
    OnePage(fs, limit, n);
    StallStarts(fs, limit);
    NotBeforeStall(fs, limit, Start(fs, n));
    var b := StallFrom(fs, limit, 0);
    if b < |fs| { PageAtStall(fs, limit, n, b); }
    hide PageEnd, QueryFrames, Filter, TickOf, SeqOf, AfterSeq, InOrder, StallsAt, Start, StallFrom, FirstStall;
    PageOutcome(|fs|, limit, n, PageEnd(fs, limit, n), b, |QueryFrames(fs, TickOf(fs, n), limit)|, Start(fs, n));
  }

  // The same in numbers: of the frames and the n read, where the page and the first stall end, and how long the page is.
  lemma PageOutcome(len: nat, limit: nat, n: nat, h: nat, b: nat, size: nat, g: nat)
    requires n <= len && h <= len && n <= b + limit && b <= len && size <= limit && limit > 0
    requires size < limit ==> n <= h == len
    requires size == limit && h <= n && n < len ==> g >= b && g + limit <= n
    requires b < len ==> h <= b + limit
    ensures var m := if n <= h then h else n;
      m <= b + limit && (size < limit || h <= n ==> m == len || m == b + limit)
  {
  }

  // Reads the frames of one agent: all of them, just when no tick holds a full page with others behind it.
  method ReadAgent(fs: seq<Frame>, limit: nat) returns (out: seq<Frame>)
    requires InOrder(fs) && limit > 0
    ensures out == AgentRead(fs, limit)
    ensures out <= fs && (out == fs <==> !Stalls(fs, limit))
  {
    hide *;
    AgentReadIs(fs, limit);
    ReadStarts(fs, limit);
    out := [];
    var tick: nat, lastSeq: int := 0, -1;
    var over := false;
    ghost var n := 0;
    while !over
      invariant n <= |fs| && n <= StallFrom(fs, limit, 0) + limit && out == fs[..n]
      invariant !over ==> tick == TickOf(fs, n) && lastSeq == SeqOf(fs, n)
      invariant over ==> n == |fs| || n == StallFrom(fs, limit, 0) + limit
      decreases |fs| - n, if over then 0 else 1
    {
      var added: seq<Frame>;
      ghost var m;
      added, over, tick, lastSeq, m := ReadPage(fs, limit, tick, lastSeq, n);
      assert fs[..n] + fs[n..m] == fs[..m];
      out := out + added;
      n := m;
    }
    ReadEnds(fs, limit, n);
  }

  lemma ReadStarts(fs: seq<Frame>, limit: nat)
    ensures TickOf(fs, 0) == 0 && SeqOf(fs, 0) == -1
  {
  }

  lemma ReadEnds(fs: seq<Frame>, limit: nat, n: nat)
    requires InOrder(fs) && limit > 0 && n <= |fs| && n <= StallFrom(fs, limit, 0) + limit
    requires n == |fs| || n == StallFrom(fs, limit, 0) + limit
    ensures fs[..n] == AgentRead(fs, limit)
  {
    StallStarts(fs, limit);
    hide StallFrom, FirstStall, InOrder;
    assert fs[..|fs|] == fs;
  }

  // A full page that brings nothing stands at one tick, with others behind it.
  lemma FullPageStalls(fs: seq<Frame>, limit: nat, g: nat, n: nat)
    requires InOrder(fs) && limit > 0 && g + limit <= n < |fs| && g == Start(fs, n)
    ensures StallsAt(fs, limit, g)
  {
    StartIsBefore(fs, n);
    hide FirstAt, Start;
    TicksBetween(fs, g, g + limit - 1, n - 1);
    hide InOrder;
  }

  // With a page and one frame more at one tick, the one more is not read.
  lemma StallShown(agentId: string, limit: nat)
    requires limit > 0
    ensures var fs := seq(limit + 1, k requires 0 <= k <= limit => Frame(agentId, k, 7, 0.7, k == 0, [], None, Some([])));
      InOrder(fs) && Stalls(fs, limit) && AgentRead(fs, limit) == fs[..limit]
  {
    var fs := seq(limit + 1, k requires 0 <= k <= limit => Frame(agentId, k, 7, 0.7, k == 0, [], None, Some([])));
    assert StallsAt(fs, limit, 0);
  }

  lemma TicksBetween(fs: seq<Frame>, g: nat, m: nat, k: nat)
    requires InOrder(fs) && g <= m <= k < |fs|
    ensures fs[g].tick <= fs[m].tick <= fs[k].tick
  {
  }

  // ---- all agents ----------------------------------------------------------------------------------------------------------------------

  function IsKeyframe(): Frame -> bool { (f: Frame) => f.keyframe }

  function AgentsIn(fs: seq<Frame>): set<string> { set f | f in fs :: f.agentId }

  // The agents found: those with a keyframe on the first page of keyframes.
  function Found(frames: seq<Frame>, limit: nat): set<string> { AgentsIn(Prefix(Filter(IsKeyframe(), frames), limit)) }

  function OfAgent(frames: seq<Frame>, agentId: string): seq<Frame> { Filter(ByAgent(agentId), frames) }

  // Each agent once, in the order of their first frames here.
  function AgentsOf(fs: seq<Frame>): (agents: seq<string>)
    ensures forall a :: a in agents <==> a in AgentsIn(fs)
    ensures forall i, j :: 0 <= i < j < |agents| ==> agents[i] != agents[j]
  {
    if fs == [] then []
    else
      var before, id := AgentsOf(fs[..|fs| - 1]), fs[|fs| - 1].agentId;
      MoreAgents(fs[..|fs| - 1], fs[|fs| - 1]);
      assert fs == fs[..|fs| - 1] + [fs[|fs| - 1]];
      if id in before then before else before + [id]
  }

  // What is read of these agents, one after the other.
  ghost function AgentsRead(frames: seq<Frame>, agents: seq<string>, limit: nat): seq<Frame> {
    if agents == [] then []
    else AgentsRead(frames, agents[..|agents| - 1], limit) + AgentRead(OfAgent(frames, agents[|agents| - 1]), limit)
  }

  // What is read of a run: of the agents with a keyframe on the first page of keyframes, in the order of those.
  ghost function AllAgentsRead(frames: seq<Frame>, limit: nat): seq<Frame> {
    AgentsRead(frames, AgentsOf(Prefix(Filter(IsKeyframe(), frames), limit)), limit)
  }

  // Reads the frames of every agent found. An agent's frames are all read, once and in order, just when it has none, or has a
  // keyframe among the first of the run and no tick with a full page of frames and others behind it.
  method ReadFrames(frames: seq<Frame>, limit: nat) returns (out: seq<Frame>)
    requires limit > 0 && forall a :: InOrder(OfAgent(frames, a))
    ensures out == AllAgentsRead(frames, limit)
    ensures forall a :: OfAgent(out, a) <= OfAgent(frames, a)
    ensures forall a :: OfAgent(out, a) == OfAgent(frames, a) <==>
      OfAgent(frames, a) == [] || (a in Found(frames, limit) && !Stalls(OfAgent(frames, a), limit))
    ensures forall a :: a !in Found(frames, limit) ==> OfAgent(out, a) == []
  {
    hide *;
    var agents := FindAgents(frames, limit);
    out := [];
    NothingRead(frames, limit);
    for k := 0 to |agents|
      invariant ReadSoFar(frames, agents[..k], limit, out)
    {
      var id := agents[k];
      assert id !in agents[..k];
      assert agents[..k + 1] == agents[..k] + [id];
      var read := ReadAgent(OfAgent(frames, id), limit);
      ReadOneMore(frames, agents[..k], limit, out, id, read);
      out := out + read;
    }
    assert agents[..|agents|] == agents;
    ReadThem(frames, agents, limit, out);
  }

  // What is there when these agents were read: of each of them what its reading gives, of others nothing.
  ghost predicate ReadSoFar(frames: seq<Frame>, agents: seq<string>, limit: nat, out: seq<Frame>) {
    && out == AgentsRead(frames, agents, limit)
    && forall a :: OfAgent(out, a) == if a in agents then AgentRead(OfAgent(frames, a), limit) else []
  }

  lemma ReadOneMore(frames: seq<Frame>, agents: seq<string>, limit: nat, out: seq<Frame>, id: string, read: seq<Frame>)
    requires ReadSoFar(frames, agents, limit, out) && id !in agents && read == AgentRead(OfAgent(frames, id), limit)
    ensures ReadSoFar(frames, agents + [id], limit, out + read)
  {
    var more := agents + [id];
    assert more[..|more| - 1] == agents && more[|more| - 1] == id;
    AgentReadIs(OfAgent(frames, id), limit);
    hide OfAgent, AgentRead, Stalls;
    forall a ensures OfAgent(out + read, a) == if a in more then AgentRead(OfAgent(frames, a), limit) else [] {
      ReadJoins(frames, out, read, id, a);
    }
  }

  lemma ReadThem(frames: seq<Frame>, agents: seq<string>, limit: nat, out: seq<Frame>)
    requires ReadSoFar(frames, agents, limit, out) && agents == AgentsOf(Prefix(Filter(IsKeyframe(), frames), limit))
    requires forall a :: a in agents <==> a in Found(frames, limit)
    ensures out == AllAgentsRead(frames, limit)
    ensures forall a :: OfAgent(out, a) <= OfAgent(frames, a)
    ensures forall a :: OfAgent(out, a) == OfAgent(frames, a) <==>
      OfAgent(frames, a) == [] || (a in Found(frames, limit) && !Stalls(OfAgent(frames, a), limit))
    ensures forall a :: a !in Found(frames, limit) ==> OfAgent(out, a) == []
  {
    hide OfAgent, AgentRead, Stalls, Found, AgentsOf, Prefix, Filter, AgentsRead;
    forall a
      ensures OfAgent(out, a) <= OfAgent(frames, a)
      ensures OfAgent(out, a) == OfAgent(frames, a) <==>
        OfAgent(frames, a) == [] || (a in Found(frames, limit) && !Stalls(OfAgent(frames, a), limit))
    {
      AgentReadIs(OfAgent(frames, a), limit);
      NothingStalls(limit);
    }
  }

  lemma NothingStalls(limit: nat)
    ensures !Stalls([], limit)
  {
  }

  // The agents found, each once.
  method FindAgents(frames: seq<Frame>, limit: nat) returns (agents: seq<string>)
    ensures agents == AgentsOf(Prefix(Filter(IsKeyframe(), frames), limit))
    ensures forall a :: a in agents <==> a in Found(frames, limit)
    ensures forall i, j :: 0 <= i < j < |agents| ==> agents[i] != agents[j]
    ensures forall a :: a in agents ==> OfAgent(frames, a) != []
  {
    hide Filter, OfAgent;
    var keyframes := Prefix(Filter(IsKeyframe(), frames), limit);
    agents := [];
    for k := 0 to |keyframes|
      invariant agents == AgentsOf(keyframes[..k])
    {
      assert keyframes[..k + 1][..k] == keyframes[..k];
      if keyframes[k].agentId !in agents { agents := agents + [keyframes[k].agentId]; }
    }
    assert keyframes[..|keyframes|] == keyframes;
    forall a | a in agents ensures OfAgent(frames, a) != [] { FoundHasFrames(frames, keyframes, a); }
  }

  lemma MoreAgents(fs: seq<Frame>, f: Frame)
    ensures AgentsIn(fs + [f]) == AgentsIn(fs) + {f.agentId}
  {
    assert (fs + [f])[|fs|] == f;
    forall x | x in fs ensures x in fs + [f] {}
  }

  lemma NothingRead(frames: seq<Frame>, limit: nat)
    ensures ReadSoFar(frames, [], limit, [])
  {
  }

  lemma ReadJoins(frames: seq<Frame>, out: seq<Frame>, read: seq<Frame>, id: string, a: string)
    requires read <= OfAgent(frames, id) && OfAgent(out, id) == []
    ensures OfAgent(out + read, a) == if a == id then read else OfAgent(out, a)
  {
    FilterConcat(ByAgent(a), out, read);
    FilterMembers(ByAgent(id), frames);
    hide Filter;
    assert forall f :: f in read ==> f in OfAgent(frames, id);
    if a == id {
      FilterAll(ByAgent(a), read);
      assert [] + read == read;
    } else {
      FilterNone(ByAgent(a), read);
      assert OfAgent(out, a) + [] == OfAgent(out, a);
    }
  }

  lemma FoundHasFrames(frames: seq<Frame>, keyframes: seq<Frame>, a: string)
    requires keyframes <= Filter(IsKeyframe(), frames) && a in AgentsIn(keyframes)
    ensures OfAgent(frames, a) != []
  {
    FilterMembers(IsKeyframe(), frames);
    FilterMembers(ByAgent(a), frames);
    hide Filter;
    var f :| f in keyframes && f.agentId == a;
    assert f in Filter(IsKeyframe(), frames);
    assert f in OfAgent(frames, a);
  }
}
