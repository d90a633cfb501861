// Prior maps as chunks: tiling (packages/scenarios/src/encode.ts), the chunk rules (validate.ts) and reading back (load.ts).
module Priors {
  import opened Wrappers
  import opened ChunkRle

  datatype Body = Fill(value: nat) | Rle(text: string)

  datatype Chunk = Chunk(ci: nat, cj: nat, body: Body)

  // A map of sizeX by sizeY cells in chunks of cs by cs.
  datatype Dims = Dims(sizeX: nat, sizeY: nat, cs: nat)

  predicate IsDims(d: Dims) { 1 <= d.cs <= 65535 }

  function Ceil(a: nat, b: nat): nat
    requires b > 0
  {
    (a + b - 1) / b
  }

  function ColumnOf(c: nat, wide: nat): nat
    requires wide > 0
  {
    c % wide
  }

  function RowOf(c: nat, wide: nat): nat
    requires wide > 0
  {
    c / wide
  }

  // Row-major places: kept behind a name, so that proofs use its two lemmas and no multiplication.
  function At(x: nat, y: nat, wide: nat): nat { y * wide + x }

  lemma AtInside(x: nat, y: nat, wide: nat, high: nat)
    requires x < wide && y < high
    ensures At(x, y, wide) < At(0, high, wide) == wide * high
  {
    assert (y + 1) * wide <= high * wide;
  }

  lemma AtOrder(x: nat, y: nat, x': nat, y': nat, wide: nat)
    requires x < wide && x' < wide
    ensures y < y' ==> At(x, y, wide) < At(x', y', wide)
    ensures At(x, y, wide) == At(x', y', wide) ==> x == x' && y == y'
  {
    if y < y' { assert (y + 1) * wide <= y' * wide; }
    if y' < y { assert (y' + 1) * wide <= y * wide; }
  }

  lemma AtDivides(x: nat, y: nat, wide: nat)
    requires x < wide
    ensures RowOf(At(x, y, wide), wide) == y && ColumnOf(At(x, y, wide), wide) == x
  {
    var n := At(x, y, wide);
    AtOrder(x, y, ColumnOf(n, wide), RowOf(n, wide), wide);
    assert n == At(ColumnOf(n, wide), RowOf(n, wide), wide);
  }

  lemma AtOf(n: nat, wide: nat)
    requires wide > 0
    ensures At(ColumnOf(n, wide), RowOf(n, wide), wide) == n && ColumnOf(n, wide) < wide
  {
  }

  // ---- tiling -----------------------------------------------------------------------------------------------------------------------

  // What is known of a cell; beyond the map, and beyond what is given, nothing.
  function CellOf(d: Dims, knowledge: seq<nat>, x: nat, y: nat): nat {
    if x < d.sizeX && y < d.sizeY && At(x, y, d.sizeX) < |knowledge| then knowledge[At(x, y, d.sizeX)] else 0
  }

  function Square(n: nat): (s: nat)
    ensures s == n * n
  {
    n * n
  }

  function Tile(d: Dims, knowledge: seq<nat>, ci: nat, cj: nat): (t: seq<nat>)
    requires IsDims(d)
    ensures |t| == d.cs * d.cs
  {
    var cells := Square(d.cs);
    seq(cells, c requires 0 <= c < cells => CellOf(d, knowledge, At(ColumnOf(c, d.cs), ci, d.cs), At(RowOf(c, d.cs), cj, d.cs)))
  }

  predicate Uniform(t: seq<nat>) { forall c :: 0 <= c < |t| ==> t[c] == t[0] }

  function ChunkOf(d: Dims, knowledge: seq<nat>, ci: nat, cj: nat): seq<Chunk>
    requires IsDims(d)
  {
    var t := Tile(d, knowledge, ci, cj);
    TileHasCells(d);
    if Uniform(t) then (if t[0] != 0 then [Chunk(ci, cj, Fill(t[0]))] else []) else [Chunk(ci, cj, Rle(EncodedChunk(t, 1)))]
  }

  lemma TileHasCells(d: Dims)
    requires IsDims(d)
    ensures 0 < d.cs * d.cs < WORD
  {
    Grows(d.cs, 65535, d.cs);
    Grows(1, d.cs, d.cs);
  }

  lemma Grows(a: nat, b: nat, c: nat)
    requires a <= b
    ensures a * c <= b * c
  {
  }

  // The chunks of the first n tiles, row by row.
  function Chunks(d: Dims, knowledge: seq<nat>, n: nat): seq<Chunk>
    requires IsDims(d) && (n > 0 ==> Ceil(d.sizeX, d.cs) > 0)
  {
    if n == 0 then []
    else
      var wide := Ceil(d.sizeX, d.cs);
      Chunks(d, knowledge, n - 1) + ChunkOf(d, knowledge, ColumnOf(n - 1, wide), RowOf(n - 1, wide))
  }

  // All tiles of the map.
  function AllChunks(d: Dims, knowledge: seq<nat>): seq<Chunk>
    requires IsDims(d)
  {
    Chunks(d, knowledge, Ceil(d.sizeX, d.cs) * Ceil(d.sizeY, d.cs))
  }

  // One tile into the buffer; whether it is all the same, and what it begins with.
  method FillTile(d: Dims, knowledge: seq<nat>, ci: nat, cj: nat, buf: array<nat>) returns (first: int, uniform: bool)
    requires IsDims(d) && buf.Length == d.cs * d.cs
    modifies buf
    ensures buf[..] == Tile(d, knowledge, ci, cj)
    ensures uniform == Uniform(Tile(d, knowledge, ci, cj)) && first == Tile(d, knowledge, ci, cj)[0]
  {
    TileHasCells(d);
    hide Uniform;
    ghost var t := Tile(d, knowledge, ci, cj);
    first, uniform := -1, true;
    var c := 0;
    NoneYet(t);
    for lj := 0 to d.cs
      invariant c == lj * d.cs <= d.cs * d.cs && buf[..c] == t[..c]
      invariant first == (if c == 0 then -1 else t[0]) && uniform == Uniform(t[..c])
    {
      for li := 0 to d.cs
        invariant c == lj * d.cs + li <= d.cs * d.cs && buf[..c] == t[..c]
        invariant first == (if c == 0 then -1 else t[0]) && uniform == Uniform(t[..c])
      {
        TileCell(d, knowledge, ci, cj, li, lj);
        var v := CellOf(d, knowledge, ci * d.cs + li, cj * d.cs + lj);
        hide CellOf, Tile;
        buf[c] := v;
        OneMore(t, c);
        assert buf[..c + 1] == buf[..c] + [v];
        if first < 0 { first := v; } else if v != first { uniform := false; }
        c := c + 1;
      }
      assert (lj + 1) * d.cs == lj * d.cs + d.cs;
    }
    assert buf[..] == buf[..c] && t[..c] == t;
  }

  lemma NoneYet(t: seq<nat>)
    ensures Uniform(t[..0])
  {
  }

  lemma OneMore(t: seq<nat>, c: nat)
    requires c < |t|
    ensures t[..c + 1] == t[..c] + [t[c]]
    ensures Uniform(t[..c + 1]) == (Uniform(t[..c]) && (c == 0 || t[c] == t[0]))
  {
    var u := t[..c + 1];
    if Uniform(u) { assert u[c] == u[0]; assert forall k :: 0 <= k < c ==> t[..c][k] == u[k]; }
  }

  lemma TileCell(d: Dims, knowledge: seq<nat>, ci: nat, cj: nat, li: nat, lj: nat)
    requires IsDims(d) && li < d.cs && lj < d.cs
    ensures lj * d.cs + li == At(li, lj, d.cs) < d.cs * d.cs
    ensures Tile(d, knowledge, ci, cj)[At(li, lj, d.cs)] == CellOf(d, knowledge, ci * d.cs + li, cj * d.cs + lj)
  {
    AtInside(li, lj, d.cs, d.cs);
    AtDivides(li, lj, d.cs);
  }

  method EncodePriorKnowledge(d: Dims, knowledge: seq<nat>) returns (out: seq<Chunk>)
    requires IsDims(d)
    ensures out == AllChunks(d, knowledge)
  {
    hide Tile, Uniform, EncodedChunk;
    var wide, high := Ceil(d.sizeX, d.cs), Ceil(d.sizeY, d.cs);
    TileHasCells(d);
    var buf := new nat[d.cs * d.cs];
    out := [];
    for cj := 0 to high
      invariant out == Chunks(d, knowledge, cj * wide)
    {
      for ci := 0 to wide
        invariant out == Chunks(d, knowledge, cj * wide + ci)
      {
        var first, uniform := FillTile(d, knowledge, ci, cj, buf);
        ghost var before := out;
        if uniform {
          if first != 0 { out := out + [Chunk(ci, cj, Fill(first))]; }
        } else {
          var text := EncodeChunkRle(buf[..], 1);
          out := out + [Chunk(ci, cj, Rle(text))];
        }
        assert out == before + ChunkOf(d, knowledge, ci, cj);
        ChunksMore(d, knowledge, ci, cj);
        hide ChunkOf;
      }
      assert (cj + 1) * wide == cj * wide + wide;
    }
    assert high * wide == wide * high;
  }

  lemma ChunksMore(d: Dims, knowledge: seq<nat>, ci: nat, cj: nat)
    requires IsDims(d) && ci < Ceil(d.sizeX, d.cs)
    ensures var n := cj * Ceil(d.sizeX, d.cs) + ci;
      Chunks(d, knowledge, n + 1) == Chunks(d, knowledge, n) + ChunkOf(d, knowledge, ci, cj)
  {
    hide ChunkOf, Ceil;
    AtDivides(ci, cj, Ceil(d.sizeX, d.cs));
  }

  // ---- the chunk rules ----------------------------------------------------------------------------------------------------------------

  datatype RuleError = SizeMismatch(k: nat) | DuplicateChunk(k: nat)

  function IdOf(c: Chunk, wide: nat): nat { At(c.ci, c.cj, wide) }

  predicate Fits(c: Chunk, wide: nat, high: nat) { c.ci < wide && c.cj < high }

  // The first k chunks are inside the grid, and none comes twice.
  ghost predicate Proper(chunks: seq<Chunk>, k: nat, wide: nat, high: nat) {
    && k <= |chunks|
    && (forall i :: 0 <= i < k ==> Fits(chunks[i], wide, high))
    && (forall i, j :: 0 <= i < j < k ==> chunks[i].ci != chunks[j].ci || chunks[i].cj != chunks[j].cj)
  }

  method CheckChunks(chunks: seq<Chunk>, wide: nat, high: nat) returns (r: Option<RuleError>)
    ensures r.None? <==> Proper(chunks, |chunks|, wide, high)
    ensures r.Some? ==> r.value.k < |chunks| && Proper(chunks, r.value.k, wide, high)
                        && (r.value.SizeMismatch? <==> !Fits(chunks[r.value.k], wide, high))
  {
    var seen: set<nat> := {};
    for k := 0 to |chunks|
      invariant Proper(chunks, k, wide, high)
      invariant forall id :: id in seen <==> exists i :: 0 <= i < k && IdOf(chunks[i], wide) == id
    {
      var c := chunks[k];
      if c.ci >= wide || c.cj >= high { return Some(SizeMismatch(k)); }
      var id := IdOf(c, wide);
      forall i | 0 <= i < k ensures (chunks[i].ci == c.ci && chunks[i].cj == c.cj) == (IdOf(chunks[i], wide) == id) {
        assert Fits(chunks[i], wide, high);
        AtOrder(chunks[i].ci, chunks[i].cj, c.ci, c.cj, wide);
      }
      hide IdOf;
      if id in seen {
        ghost var i :| 0 <= i < k && IdOf(chunks[i], wide) == id;
        assert chunks[i].ci == chunks[k].ci && chunks[i].cj == chunks[k].cj;
        return Some(DuplicateChunk(k));
      }
      seen := seen + {id};
    }
    return None;
  }

  // Row by row, each within the first n tiles.
  ghost predicate RowMajor(chunks: seq<Chunk>, wide: nat, n: nat) {
    && (forall i :: 0 <= i < |chunks| ==> chunks[i].ci < wide && IdOf(chunks[i], wide) < n)
    && (forall i, j :: 0 <= i < j < |chunks| ==> IdOf(chunks[i], wide) < IdOf(chunks[j], wide))
  }

  lemma {:induction false} ChunksRowMajor(d: Dims, knowledge: seq<nat>, n: nat)
    requires IsDims(d) && (n > 0 ==> Ceil(d.sizeX, d.cs) > 0)
    ensures RowMajor(Chunks(d, knowledge, n), Ceil(d.sizeX, d.cs), n)
  {
    hide ChunkOf, IdOf, Ceil;
    if n > 0 {
      var wide := Ceil(d.sizeX, d.cs);
      ChunksRowMajor(d, knowledge, n - 1);
      AtOf(n - 1, wide);
      OneChunk(d, knowledge, ColumnOf(n - 1, wide), RowOf(n - 1, wide));
    }
  }

  lemma OneChunk(d: Dims, knowledge: seq<nat>, ci: nat, cj: nat)
    requires IsDims(d)
    ensures var cs := ChunkOf(d, knowledge, ci, cj);
      |cs| <= 1 && forall c :: c in cs ==> c.ci == ci && c.cj == cj && forall wide :: IdOf(c, wide) == At(ci, cj, wide)
  {
    hide Tile, Uniform, EncodedChunk;
  }

  // What is written keeps the rules: row-major, each chunk at most once and inside the grid.
  lemma EncodedIsProper(d: Dims, knowledge: seq<nat>)
    requires IsDims(d)
    ensures var chunks, wide, high := AllChunks(d, knowledge), Ceil(d.sizeX, d.cs), Ceil(d.sizeY, d.cs);
      && Proper(chunks, |chunks|, wide, high)
      && forall i, j :: 0 <= i < j < |chunks| ==> chunks[i].cj < chunks[j].cj || (chunks[i].cj == chunks[j].cj && chunks[i].ci < chunks[j].ci)
  {
    hide Ceil;
    var chunks, wide, high := AllChunks(d, knowledge), Ceil(d.sizeX, d.cs), Ceil(d.sizeY, d.cs);
    assert wide == 0 ==> wide * high == 0;
    ChunksRowMajor(d, knowledge, wide * high);
    hide AllChunks;
    forall i | 0 <= i < |chunks| ensures Fits(chunks[i], wide, high) {
      RowInside(chunks[i].ci, chunks[i].cj, wide, high);
    }
    forall i, j | 0 <= i < j < |chunks|
      ensures chunks[i].cj < chunks[j].cj || (chunks[i].cj == chunks[j].cj && chunks[i].ci < chunks[j].ci)
    {
      assert IdOf(chunks[i], wide) < IdOf(chunks[j], wide);
      AtOrder(chunks[j].ci, chunks[j].cj, chunks[i].ci, chunks[i].cj, wide);
    }
  }

  lemma RowInside(x: nat, y: nat, wide: nat, high: nat)
    requires x < wide && At(x, y, wide) < wide * high
    ensures y < high
  {
    if y >= high { Grows(high, y, wide); }
  }

  // ---- reading back ---------------------------------------------------------------------------------------------------------------------------

  // The largest value of a layer, and its width in bytes.
  datatype Layer = Layer(max: nat, bytes: width, absent: nat)

  const KNOWLEDGE := Layer(2, 1, 0)

  datatype LoadError = DecodeFailed(k: nat) | OutOfRange(k: nat)

  // The values of a chunk, when it decodes.
  function Values(c: Chunk, l: Layer, cells: nat): Option<seq<nat>> {
    match c.body
    case Fill(v) => Some(Repeat(v, cells))
    case Rle(text) =>
      var r := DecodedChunk(text, cells, l.bytes);
      if r.Ok? && forall i :: 0 <= i < |r.value| ==> r.value[i] <= l.max then Some(r.value) else None
  }

  ghost predicate Covers(c: Chunk, cs: nat, x: nat, y: nat) {
    At(0, c.ci, cs) <= x < At(0, c.ci, cs) + cs && At(0, c.cj, cs) <= y < At(0, c.cj, cs) + cs
  }

  // What a chunk puts in a cell it covers.
  function Put(c: Chunk, l: Layer, cs: nat, x: nat, y: nat): nat {
    var at, vs := At(Monus(x, At(0, c.ci, cs)), Monus(y, At(0, c.cj, cs)), cs), Values(c, l, cs * cs);
    if vs.Some? && at < |vs.value| then Low(vs.value[at], l.bytes) else 0
  }

  function Monus(a: nat, b: nat): nat { if a >= b then a - b else 0 }

  // A cell after the chunks: the last that covers it decides; what no chunk covers is as absent chunks are.
  ghost function Painted(chunks: seq<Chunk>, l: Layer, cs: nat, x: nat, y: nat): nat {
    if chunks == [] then l.absent
    else
      var c := chunks[|chunks| - 1];
      if Covers(c, cs, x, y) then Put(c, l, cs, x, y) else Painted(chunks[..|chunks| - 1], l, cs, x, y)
  }

  ghost predicate IsPainted(cells: seq<nat>, d: Dims, l: Layer, chunks: seq<Chunk>) {
    && |cells| == d.sizeX * d.sizeY
    && (forall x, y :: 0 <= x < d.sizeX && 0 <= y < d.sizeY ==> CellAt(cells, d, x, y) == Some(Painted(chunks, l, d.cs, x, y)))
  }

  function CellAt(cells: seq<nat>, d: Dims, x: nat, y: nat): Option<nat> {
    if At(x, y, d.sizeX) < |cells| then Some(cells[At(x, y, d.sizeX)]) else None
  }

  // A layer is all its chunks say, the later ones over the earlier; the first chunk that does not decode, or holds a value above
  // the layer's largest, refuses it.
  method DecodeLayer(d: Dims, l: Layer, chunks: seq<Chunk>) returns (r: Result<seq<nat>, LoadError>)
    requires IsDims(d)
    ensures r.Ok? <==> forall k :: 0 <= k < |chunks| ==> Values(chunks[k], l, d.cs * d.cs).Some?
    ensures r.Ok? ==> IsPainted(r.value, d, l, chunks)
    ensures r.Err? ==> r.error.k < |chunks| && Values(chunks[r.error.k], l, d.cs * d.cs).None?
                       && forall k :: 0 <= k < r.error.k ==> Values(chunks[k], l, d.cs * d.cs).Some?
  {
    hide Values, IsPainted;
    var target := new nat[d.sizeX * d.sizeY](_ => l.absent);
    NothingPainted(target[..], d, l);
    assert chunks[..0] == [];
    for m := 0 to |chunks|
      invariant IsPainted(target[..], d, l, chunks[..m])
      invariant forall k :: 0 <= k < m ==> Values(chunks[k], l, d.cs * d.cs).Some?
    {
      var c := chunks[m];
      var values := ReadValues(c, l, d.cs * d.cs);
      if values.Err? {
        return Err(if values.error then OutOfRange(m) else DecodeFailed(m));
      }
      ghost var before := target[..];
      Paint(d, l, c, values.value, target);
      assert chunks[..m + 1] == chunks[..m] + [c];
      PaintedMore(before, target[..], d, l, chunks[..m], c);
    }
    assert chunks[..|chunks|] == chunks;
    return Ok(target[..]);
  }

  // The error says whether a value is out of range.
  method ReadValues(c: Chunk, l: Layer, cells: nat) returns (r: Result<seq<nat>, bool>)
    ensures r.Ok? <==> Values(c, l, cells).Some?
    ensures r.Ok? ==> r.value == Values(c, l, cells).value && |r.value| == cells
  {
    hide DecodedChunk;
    match c.body {
      case Fill(v) => return Ok(Repeat(v, cells));
      case Rle(text) =>
        var decoded := DecodeChunkRle(text, cells, l.bytes);
        if decoded.Err? { return Err(false); }
        DecodedFits(text, cells, l.bytes);
        for i := 0 to |decoded.value|
          invariant forall k :: 0 <= k < i ==> decoded.value[k] <= l.max
        {
          if decoded.value[i] > l.max { return Err(true); }
        }
        return Ok(decoded.value);
    }
  }

  // One row of a chunk, cut at the edge of the map.
  method PaintRow(d: Dims, l: Layer, c: Chunk, values: seq<nat>, lj: nat, target: array<nat>)
    requires IsDims(d) && |values| == d.cs * d.cs && lj < d.cs && target.Length == d.sizeX * d.sizeY
    requires At(0, c.cj, d.cs) + lj < d.sizeY
    modifies target
    ensures forall x, y :: 0 <= x < d.sizeX && 0 <= y < d.sizeY ==>
      CellAt(target[..], d, x, y) == if InRow(c, d.cs, x, y, lj) then Some(Low(Sample(values, d.cs, c, x, y), l.bytes))
                                     else CellAt(old(target[..]), d, x, y)
  {
    hide Low, At, CellAt, Sample;
    RowStart(c.cj, d.cs);
    RowStart(c.ci, d.cs);
    var j := c.cj * d.cs + lj;
    var li := 0;
    ghost var before := target[..];
    assert RowTo(before, before, d, l, c, values, lj, 0);
    hide RowTo;
    while li < d.cs && c.ci * d.cs + li < d.sizeX
      invariant 0 <= li <= d.cs && RowTo(before, target[..], d, l, c, values, lj, li)
    {
      PaintCell(d, l, c, values, lj, li, j, target, before);
      li := li + 1;
    }
    RowDone(before, target[..], d, l, c, values, lj, li);
  }

  method PaintCell(d: Dims, l: Layer, c: Chunk, values: seq<nat>, lj: nat, li: nat, j: nat, target: array<nat>, ghost before: seq<nat>)
    requires IsDims(d) && |values| == d.cs * d.cs && lj < d.cs && li < d.cs && target.Length == d.sizeX * d.sizeY
    requires j == c.cj * d.cs + lj < d.sizeY && c.ci * d.cs + li < d.sizeX && RowTo(before, target[..], d, l, c, values, lj, li)
    modifies target
    ensures RowTo(before, target[..], d, l, c, values, lj, li + 1)
  {
    hide Low, At, CellAt, Sample, RowTo;
    RowStart(c.cj, d.cs);
    RowStart(c.ci, d.cs);
    SampleAt(values, d.cs, c, li, lj);
    ghost var mid := target[..];
    PutCell(d, target, c.ci * d.cs + li, j, Low(values[lj * d.cs + li], l.bytes));
    RowOn(before, mid, target[..], d, l, c, values, lj, li, c.ci * d.cs + li, j);
  }

  lemma RowDone(before: seq<nat>, after: seq<nat>, d: Dims, l: Layer, c: Chunk, values: seq<nat>, lj: nat, li: nat)
    requires RowTo(before, after, d, l, c, values, lj, li) && (li == d.cs || At(0, c.ci, d.cs) + li >= d.sizeX) && li <= d.cs
    ensures forall x, y :: 0 <= x < d.sizeX && 0 <= y < d.sizeY ==>
      CellAt(after, d, x, y) == if InRow(c, d.cs, x, y, lj) then Some(Low(Sample(values, d.cs, c, x, y), l.bytes))
                                else CellAt(before, d, x, y)
  {
    hide Low, At, CellAt, Sample;
  }

  // The first cells of a row are painted, and nothing else has changed.
  ghost predicate RowTo(before: seq<nat>, after: seq<nat>, d: Dims, l: Layer, c: Chunk, values: seq<nat>, lj: nat, li: nat) {
    forall x, y :: 0 <= x < d.sizeX && 0 <= y < d.sizeY ==>
      CellAt(after, d, x, y) == if InRow(c, d.cs, x, y, lj) && x < At(0, c.ci, d.cs) + li
                                then Some(Low(Sample(values, d.cs, c, x, y), l.bytes)) else CellAt(before, d, x, y)
  }

  lemma RowOn(before: seq<nat>, mid: seq<nat>, after: seq<nat>, d: Dims, l: Layer, c: Chunk, values: seq<nat>, lj: nat, li: nat, i: nat,
              j: nat)
    requires RowTo(before, mid, d, l, c, values, lj, li) && li < d.cs && i == At(0, c.ci, d.cs) + li && j == At(0, c.cj, d.cs) + lj
    requires forall x, y :: 0 <= x < d.sizeX && 0 <= y < d.sizeY ==>
      CellAt(after, d, x, y) == if x == i && y == j then Some(Low(Sample(values, d.cs, c, i, j), l.bytes)) else CellAt(mid, d, x, y)
    ensures RowTo(before, after, d, l, c, values, lj, li + 1)
  {
    hide Low, At, CellAt, Sample;
  }

  method PutCell(d: Dims, target: array<nat>, i: nat, j: nat, v: nat)
    requires target.Length == d.sizeX * d.sizeY && i < d.sizeX && j < d.sizeY
    modifies target
    ensures forall x, y :: 0 <= x < d.sizeX && 0 <= y < d.sizeY ==>
      CellAt(target[..], d, x, y) == if x == i && y == j then Some(v) else CellAt(old(target[..]), d, x, y)
  {
    AtInside(i, j, d.sizeX, d.sizeY);
    ghost var before := target[..];
    target[j * d.sizeX + i] := v;
    OneCell(before, target[..], d, i, j, v);
  }

  lemma SampleAt(values: seq<nat>, cs: nat, c: Chunk, li: nat, lj: nat)
    requires |values| == cs * cs && li < cs && lj < cs
    ensures lj * cs + li < |values|
    ensures Sample(values, cs, c, c.ci * cs + li, c.cj * cs + lj) == values[lj * cs + li]
  {
    AtInside(li, lj, cs, cs);
  }

  ghost predicate InRow(c: Chunk, cs: nat, x: nat, y: nat, lj: nat) {
    At(0, c.ci, cs) <= x < At(0, c.ci, cs) + cs && y == At(0, c.cj, cs) + lj
  }

  function Sample(values: seq<nat>, cs: nat, c: Chunk, x: nat, y: nat): nat {
    var at := At(Monus(x, At(0, c.ci, cs)), Monus(y, At(0, c.cj, cs)), cs);
    if at < |values| then values[at] else 0
  }

  lemma OneCell(before: seq<nat>, after: seq<nat>, d: Dims, i: nat, j: nat, v: nat)
    requires |before| == d.sizeX * d.sizeY && i < d.sizeX && j < d.sizeY && At(i, j, d.sizeX) < |before|
    requires after == before[At(i, j, d.sizeX) := v]
    ensures forall x, y :: 0 <= x < d.sizeX && 0 <= y < d.sizeY ==>
      CellAt(after, d, x, y) == if x == i && y == j then Some(v) else CellAt(before, d, x, y)
  {
    forall x: nat, y: nat | x < d.sizeX && y < d.sizeY
      ensures CellAt(after, d, x, y) == if x == i && y == j then Some(v) else CellAt(before, d, x, y)
    {
      AtOrder(x, y, i, j, d.sizeX);
    }
  }

  // The cells of a chunk inside the map.
  method Paint(d: Dims, l: Layer, c: Chunk, values: seq<nat>, target: array<nat>)
    requires IsDims(d) && |values| == d.cs * d.cs && target.Length == d.sizeX * d.sizeY
    modifies target
    ensures forall x, y :: 0 <= x < d.sizeX && 0 <= y < d.sizeY ==>
      CellAt(target[..], d, x, y) == if Covers(c, d.cs, x, y) then Some(Low(Sample(values, d.cs, c, x, y), l.bytes))
                                     else CellAt(old(target[..]), d, x, y)
  {
    hide At, CellAt, Sample, Low;
    var lj := 0;
    RowStart(c.cj, d.cs);
    while lj < d.cs && c.cj * d.cs + lj < d.sizeY
      invariant 0 <= lj <= d.cs
      invariant forall x, y :: 0 <= x < d.sizeX && 0 <= y < d.sizeY ==>
        CellAt(target[..], d, x, y) == if Covers(c, d.cs, x, y) && y < At(0, c.cj, d.cs) + lj
                                       then Some(Low(Sample(values, d.cs, c, x, y), l.bytes)) else CellAt(old(target[..]), d, x, y)
    {
      PaintRow(d, l, c, values, lj, target);
      lj := lj + 1;
    }
  }

  lemma RowStart(c: nat, cs: nat)
    ensures At(0, c, cs) == c * cs
  {
  }

  lemma NothingPainted(cells: seq<nat>, d: Dims, l: Layer)
    requires |cells| == d.sizeX * d.sizeY && forall k :: 0 <= k < |cells| ==> cells[k] == l.absent
    ensures IsPainted(cells, d, l, [])
  {
    forall x: nat, y: nat | x < d.sizeX && y < d.sizeY ensures CellAt(cells, d, x, y) == Some(l.absent) {
      AtInside(x, y, d.sizeX, d.sizeY);
    }
  }

  lemma PaintedMore(before: seq<nat>, after: seq<nat>, d: Dims, l: Layer, chunks: seq<Chunk>, c: Chunk)
    requires IsPainted(before, d, l, chunks) && |after| == |before| && Values(c, l, d.cs * d.cs).Some?
    requires forall x, y :: 0 <= x < d.sizeX && 0 <= y < d.sizeY ==>
      CellAt(after, d, x, y) == if Covers(c, d.cs, x, y) then Some(Low(Sample(Values(c, l, d.cs * d.cs).value, d.cs, c, x, y), l.bytes))
                                else CellAt(before, d, x, y)
    ensures IsPainted(after, d, l, chunks + [c])
  {
    hide CellAt, Covers, Values, At;
    var more := chunks + [c];
    assert more[..|more| - 1] == chunks && more[|more| - 1] == c;
    forall x: nat, y: nat | x < d.sizeX && y < d.sizeY ensures CellAt(after, d, x, y) == Some(Painted(more, l, d.cs, x, y)) {
      LowOfNothing(l.bytes);
    }
  }

  lemma LowOfNothing(w: width)
    ensures Low(0, w) == 0
  {
  }

  // ---- the round trip ---------------------------------------------------------------------------------------------------------------------------

  predicate IsKnowledge(knowledge: seq<nat>) { forall k :: 0 <= k < |knowledge| ==> knowledge[k] <= 2 }

  // A chunk covers the cells of its tile: those whose place divides to its own.
  lemma CoversTile(c: Chunk, cs: nat, x: nat, y: nat)
    requires cs > 0
    ensures Covers(c, cs, x, y) <==> RowOf(x, cs) == c.ci && RowOf(y, cs) == c.cj
    ensures Covers(c, cs, x, y) ==> Monus(x, At(0, c.ci, cs)) == ColumnOf(x, cs) && Monus(y, At(0, c.cj, cs)) == ColumnOf(y, cs)
  {
    InTile(x, c.ci, cs);
    InTile(y, c.cj, cs);
  }

  lemma InTile(x: nat, c: nat, cs: nat)
    requires cs > 0
    ensures At(0, c, cs) <= x < At(0, c, cs) + cs <==> RowOf(x, cs) == c
    ensures RowOf(x, cs) == c ==> x - At(0, c, cs) == ColumnOf(x, cs)
  {
    AtOf(x, cs);
    if At(0, c, cs) <= x < At(0, c, cs) + cs {
      assert x == At(x - At(0, c, cs), c, cs);
      AtDivides(x - At(0, c, cs), c, cs);
    }
  }

  lemma TileAt(d: Dims, knowledge: seq<nat>, x: nat, y: nat)
    requires IsDims(d)
    ensures var t, at := Tile(d, knowledge, RowOf(x, d.cs), RowOf(y, d.cs)), At(ColumnOf(x, d.cs), ColumnOf(y, d.cs), d.cs);
      at < |t| && t[at] == CellOf(d, knowledge, x, y)
  {
    AtOf(x, d.cs);
    AtOf(y, d.cs);
    AtInside(ColumnOf(x, d.cs), ColumnOf(y, d.cs), d.cs, d.cs);
    AtDivides(ColumnOf(x, d.cs), ColumnOf(y, d.cs), d.cs);
    hide CellOf, At;
  }

  lemma TileIsKnowledge(d: Dims, knowledge: seq<nat>, ci: nat, cj: nat)
    requires IsDims(d) && IsKnowledge(knowledge)
    ensures var t := Tile(d, knowledge, ci, cj); Lows(t, 1) == t && forall k :: 0 <= k < |t| ==> t[k] <= 2
  {
    hide At;
  }

  // What the chunks of a tile put in a cell of it is what was known of the cell.
  lemma ChunkPuts(d: Dims, knowledge: seq<nat>, x: nat, y: nat)
    requires IsDims(d) && IsKnowledge(knowledge)
    ensures var cs := ChunkOf(d, knowledge, RowOf(x, d.cs), RowOf(y, d.cs));
      && (forall c :: c in cs ==> Values(c, KNOWLEDGE, d.cs * d.cs).Some? && Put(c, KNOWLEDGE, d.cs, x, y) == CellOf(d, knowledge, x, y))
      && (cs == [] ==> CellOf(d, knowledge, x, y) == 0)
  {
    hide CellOf, EncodedChunk, DecodedChunk, Lows, At, ColumnOf, RowOf;
    TileHasCells(d);
    var t := Tile(d, knowledge, RowOf(x, d.cs), RowOf(y, d.cs));
    TileAt(d, knowledge, x, y);
    TileIsKnowledge(d, knowledge, RowOf(x, d.cs), RowOf(y, d.cs));
    ChunkRoundTrip(t, 1);
    hide Tile;
    forall c | c in ChunkOf(d, knowledge, RowOf(x, d.cs), RowOf(y, d.cs))
      ensures Values(c, KNOWLEDGE, d.cs * d.cs).Some? && Put(c, KNOWLEDGE, d.cs, x, y) == CellOf(d, knowledge, x, y)
    {
      CoversTile(c, d.cs, x, y);
    }
  }

  lemma {:induction false} ChunksPaint(d: Dims, knowledge: seq<nat>, n: nat, x: nat, y: nat)
    requires IsDims(d) && IsKnowledge(knowledge) && x < d.sizeX && Ceil(d.sizeX, d.cs) > 0
    ensures Painted(Chunks(d, knowledge, n), KNOWLEDGE, d.cs, x, y)
         == if At(RowOf(x, d.cs), RowOf(y, d.cs), Ceil(d.sizeX, d.cs)) < n then CellOf(d, knowledge, x, y) else 0
  {
    hide ChunkOf, CellOf, Put, Values, Covers, ColumnOf, RowOf;
    if n > 0 {
      var wide := Ceil(d.sizeX, d.cs);
      var ci, cj := ColumnOf(n - 1, wide), RowOf(n - 1, wide);
      var before, one := Chunks(d, knowledge, n - 1), ChunkOf(d, knowledge, ci, cj);
      ChunksPaint(d, knowledge, n - 1, x, y);
      OneChunk(d, knowledge, ci, cj);
      ChunkPuts(d, knowledge, x, y);
      InCeil(x, d.sizeX, d.cs);
      AtOf(n - 1, wide);
      AtOrder(ci, cj, RowOf(x, d.cs), RowOf(y, d.cs), wide);
      hide At, Ceil;
      if one == [] {
        assert before + one == before;
      } else {
        CoversTile(one[0], d.cs, x, y);
        var more := before + one;
        assert more[|more| - 1] == one[0] && more[..|more| - 1] == before;
      }
    }
  }

  lemma InCeil(x: nat, size: nat, cs: nat)
    requires x < size && cs > 0
    ensures RowOf(x, cs) < Ceil(size, cs)
  {
    AtOf(x, cs);
    AtOf(size + cs - 1, cs);
    if RowOf(x, cs) >= Ceil(size, cs) { Grows(Ceil(size, cs), RowOf(x, cs), cs); }
  }

  lemma {:induction false} ChunksDecode(d: Dims, knowledge: seq<nat>, n: nat)
    requires IsDims(d) && IsKnowledge(knowledge) && (n > 0 ==> Ceil(d.sizeX, d.cs) > 0)
    ensures forall c :: c in Chunks(d, knowledge, n) ==> Values(c, KNOWLEDGE, d.cs * d.cs).Some?
  {
    hide ChunkOf, Values, Ceil, ColumnOf, RowOf;
    if n > 0 {
      var wide := Ceil(d.sizeX, d.cs);
      var ci, cj := ColumnOf(n - 1, wide), RowOf(n - 1, wide);
      ChunksDecode(d, knowledge, n - 1);
      AtDivides(0, ci, d.cs);
      AtDivides(0, cj, d.cs);
      ChunkPuts(d, knowledge, At(0, ci, d.cs), At(0, cj, d.cs));
    }
  }

  // A prior map survives tiling, whatever its size and the size of its chunks: what is read back of the chunks written is what
  // was known of every cell.
  lemma PriorRoundTrip(d: Dims, knowledge: seq<nat>, cells: seq<nat>)
    requires IsDims(d) && IsKnowledge(knowledge) && |knowledge| == d.sizeX * d.sizeY
    requires IsPainted(cells, d, KNOWLEDGE, AllChunks(d, knowledge))
    ensures cells == knowledge
  {
    forall k | 0 <= k < |knowledge| ensures cells[k] == knowledge[k] {
      assert d.sizeX > 0;
      var x, y := ColumnOf(k, d.sizeX), RowOf(k, d.sizeX);
      AtOf(k, d.sizeX);
      RowInside(x, y, d.sizeX, d.sizeY);
      CellReadsBack(d, knowledge, cells, x, y);
    }
  }

  lemma CellReadsBack(d: Dims, knowledge: seq<nat>, cells: seq<nat>, x: nat, y: nat)
    requires IsDims(d) && IsKnowledge(knowledge) && x < d.sizeX && y < d.sizeY
    requires IsPainted(cells, d, KNOWLEDGE, AllChunks(d, knowledge))
    ensures CellAt(cells, d, x, y) == Some(CellOf(d, knowledge, x, y))
  {
    hide ColumnOf, RowOf, CellOf, CellAt, Ceil, At, Painted;
    InCeil(x, d.sizeX, d.cs);
    InCeil(y, d.sizeY, d.cs);
    AtInside(RowOf(x, d.cs), RowOf(y, d.cs), Ceil(d.sizeX, d.cs), Ceil(d.sizeY, d.cs));
    ChunksPaint(d, knowledge, Ceil(d.sizeX, d.cs) * Ceil(d.sizeY, d.cs), x, y);
  }

  // Writing and reading one after the other.
  method TileAndBack(d: Dims, knowledge: seq<nat>) returns (chunks: seq<Chunk>, cells: seq<nat>)
    requires IsDims(d) && IsKnowledge(knowledge) && |knowledge| == d.sizeX * d.sizeY
    ensures cells == knowledge
  {
    chunks := EncodePriorKnowledge(d, knowledge);
    var wide, high := Ceil(d.sizeX, d.cs), Ceil(d.sizeY, d.cs);
    assert wide == 0 ==> wide * high == 0;
    ChunksDecode(d, knowledge, wide * high);
    hide IsPainted, Values, Chunks;
    var read := DecodeLayer(d, KNOWLEDGE, chunks);
    PriorRoundTrip(d, knowledge, read.value);
    cells := read.value;
  }
}
