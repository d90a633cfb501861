// The spatial hash for neighbour queries (packages/spatial/src/spatial-hash.ts), over exact reals.
module SpatialHashing {
  import opened Wrappers
  import opened Sorting
  import opened Reals

  datatype Entry = Entry(x: real, y: real, bucket: int)

  function Cell(v: real, size: real): int
    requires size > 0.0
  {
    (v / size).Floor
  }

  // The number of the bucket in row `row`, column `col`. Outside the grid's columns, numbers alias.
  function Key(row: int, col: int, width: int): int { row * width + col }

  predicate Near(e: Entry, x: real, y: real, radius: real) { Square(e.x - x) + Square(e.y - y) <= Square(radius) }

  // The buckets a query looks at: the rectangle of cells around the disc, as far as it is in the grid.
  predicate Looked(row: int, col: int, width: int, x0: int, x1: int, y0: int, y1: int) {
    y0 <= row <= y1 && x0 <= col <= x1 && 0 <= col < width && 0 <= row
  }

  // ---- arithmetic --------------------------------------------------------------------------------------------------------

  lemma KeyUnique(row: int, col: int, row': int, col': int, width: int)
    requires 0 <= col < width && 0 <= col' < width && Key(row, col, width) == Key(row', col', width)
    ensures row == row' && col == col'
  {
    if row < row' { RowsApart(row, row', width); }
    if row > row' { RowsApart(row', row, width); }
  }

  lemma {:induction false} RowsApart(a: int, b: int, width: int)
    requires a < b && width > 0
    ensures a * width + width <= b * width
    decreases b - a
  {
    assert b * width == (b - 1) * width + width;
    if a < b - 1 { RowsApart(a, b - 1, width); }
  }

  lemma CellMonotone(a: real, b: real, size: real)
    requires size > 0.0 && a <= b
    ensures Cell(a, size) <= Cell(b, size)
  {
    var p, q := a / size, b / size;
    assert p * size == a && q * size == b;
    if p > q { assert (p - q) * size > 0.0; assert (p - q) * size == p * size - q * size; }
  }

  lemma SideWithinRadius(d: real, e: real, r: real)
    requires r >= 0.0 && Square(d) + Square(e) <= Square(r)
    ensures -r <= d <= r
  {
    hide Square;
    SquareNotNegative(e);
    SquareNegated(d);
    if d > r { SquareGrows(r, d); }
    if d < -r { SquareGrows(r, -d); }
  }

  // A point of the disc is in the rectangle of cells a query looks at.
  lemma DiscInRectangle(e: Entry, x: real, y: real, radius: real, size: real)
    requires size > 0.0 && radius >= 0.0 && Near(e, x, y, radius)
    ensures Cell(x - radius, size) <= Cell(e.x, size) <= Cell(x + radius, size)
    ensures Cell(y - radius, size) <= Cell(e.y, size) <= Cell(y + radius, size)
  {
    SideWithinRadius(e.x - x, e.y - y, radius);
    SideWithinRadius(e.y - y, e.x - x, radius);
    CellMonotone(x - radius, e.x, size);
    CellMonotone(e.x, x + radius, size);
    CellMonotone(y - radius, e.y, size);
    CellMonotone(e.y, y + radius, size);
  }

  // ---- the index -----------------------------------------------------------------------------------------------------------

  predicate Member(buckets: map<int, set<string>>, b: int, id: string) { b in buckets && id in buckets[b] }

  class SpatialHash {
    const bucketSizeM: real
    const bucketsX: int
    var buckets: map<int, set<string>>
    var positions: map<string, Entry>

    ghost predicate Valid()
      reads this
    {
      && bucketSizeM > 0.0
      && (forall id :: id in positions ==>
            && positions[id].bucket == BucketOf(positions[id].x, positions[id].y)
            && Member(buckets, positions[id].bucket, id))
      && (forall b, id :: Member(buckets, b, id) ==> id in positions && positions[id].bucket == b)
    }

    // Where every entity is.
    ghost function Where(): map<string, (real, real)>
      reads this
    {
      map id | id in positions :: (positions[id].x, positions[id].y)
    }

    constructor (bucketSizeM: real, bucketsX: int)
      requires bucketSizeM > 0.0
      ensures Valid() && Where() == map[]
      ensures this.bucketSizeM == bucketSizeM && this.bucketsX == bucketsX
    {
      this.bucketSizeM, this.bucketsX := bucketSizeM, bucketsX;
      buckets, positions := map[], map[];
    }

    function BucketOf(x: real, y: real): int
      requires bucketSizeM > 0.0
    {
      Key(Cell(y, bucketSizeM), Cell(x, bucketSizeM), bucketsX)
    }

    // An entity inside the columns and rows of the grid.
    predicate InGrid(x: real, y: real)
      requires bucketSizeM > 0.0
    {
      0 <= Cell(x, bucketSizeM) < bucketsX && 0 <= Cell(y, bucketSizeM)
    }

    method DropFrom(b: int, id: string)
      modifies this`buckets
      ensures forall k, i :: Member(buckets, k, i) <==> Member(old(buckets), k, i) && !(k == b && i == id)
    {
      if b in buckets { buckets := buckets[b := buckets[b] - {id}]; }
    }

    method AddTo(b: int, id: string)
      modifies this`buckets
      ensures forall k, i :: Member(buckets, k, i) <==> Member(old(buckets), k, i) || (k == b && i == id)
    {
      if b !in buckets { buckets := buckets[b := {}]; }
      buckets := buckets[b := buckets[b] + {id}];
    }

    method Put(id: string, x: real, y: real)
      requires Valid()
      modifies this
      ensures Valid() && Where() == old(Where())[id := (x, y)]
    {
      hide BucketOf, Member;
      var b := BucketOf(x, y);
      if id in positions && positions[id].bucket != b { DropFrom(positions[id].bucket, id); }
      if id !in positions || positions[id].bucket != b { AddTo(b, id); }
      positions := positions[id := Entry(x, y, b)];
    }

    method Remove(id: string)
      requires Valid()
      modifies this
      ensures Valid() && Where() == old(Where()) - {id}
    {
      hide BucketOf, Member;
      if id !in positions { return; }
      DropFrom(positions[id].bucket, id);
      positions := positions - {id};
    }

    ghost predicate Hit(id: string, x: real, y: real, radius: real, exclude: Option<string>)
      reads this
    {
      id in positions && Some(id) != exclude && Near(positions[id], x, y, radius)
    }

    // The numbers of a set of cells.
    ghost function Keys(cells: set<(int, int)>): set<int> { set c | c in cells :: Key(c.0, c.1, bucketsX) }

    // `out` is, once each, the hits of the buckets of these cells.
    ghost predicate Found(out: seq<string>, cells: set<(int, int)>, x: real, y: real, radius: real, exclude: Option<string>)
      reads this
    {
      && (forall id :: id in out <==> Hit(id, x, y, radius, exclude) && positions[id].bucket in Keys(cells))
      && (forall i, j :: 0 <= i < j < |out| ==> out[i] != out[j])
    }

    lemma NewKey(cells: set<(int, int)>, row: int, col: int)
      requires 0 <= col < bucketsX && (row, col) !in cells
      requires forall c :: c in cells ==> 0 <= c.1 < bucketsX
      ensures Key(row, col, bucketsX) !in Keys(cells)
      ensures Keys(cells + {(row, col)}) == Keys(cells) + {Key(row, col, bucketsX)}
    {
      hide Key;
      forall c | c in cells ensures Key(c.0, c.1, bucketsX) != Key(row, col, bucketsX) {
        if Key(c.0, c.1, bucketsX) == Key(row, col, bucketsX) { KeyUnique(c.0, c.1, row, col, bucketsX); }
      }
    }

    // Adds the hits of one bucket.
    method ScanBucket(out: seq<string>, ghost cells: set<(int, int)>, row: int, col: int, x: real, y: real, radius: real,
                      exclude: Option<string>)
      returns (r: seq<string>)
      requires Valid() && Found(out, cells, x, y, radius, exclude)
      requires 0 <= col < bucketsX && (row, col) !in cells && forall c :: c in cells ==> 0 <= c.1 < bucketsX
      ensures Found(r, cells + {(row, col)}, x, y, radius, exclude)
    {
      NewKey(cells, row, col);
      hide Keys, Key, Near, Square, BucketOf;
      r := out;
      var key := Key(row, col, bucketsX);
      if key !in buckets { return; }
      var rest := buckets[key];
      assert forall id :: id in buckets[key] <==> Member(buckets, key, id);
      hide Member;
      while rest != {}
        invariant rest <= buckets[key]
        invariant forall id :: id in r <==>
          Hit(id, x, y, radius, exclude) && (positions[id].bucket in Keys(cells) || (positions[id].bucket == key && id !in rest))
        invariant forall i, j :: 0 <= i < j < |r| ==> r[i] != r[j]
      {
        var id :| id in rest;
        assert Member(buckets, key, id);
        rest := rest - {id};
        if Some(id) != exclude && Near(positions[id], x, y, radius) { r := r + [id]; }
      }
    }

    // What a query finds: within the radius, except the excluded one, in a bucket it looks at.
    ghost predicate Answer(id: string, x: real, y: real, radius: real, exclude: Option<string>)
      requires bucketSizeM > 0.0
      reads this
    {
      Hit(id, x, y, radius, exclude)
      && exists row, col :: Key(row, col, bucketsX) == positions[id].bucket && InRange(row, col, x, y, radius)
    }

    ghost predicate InRange(row: int, col: int, x: real, y: real, radius: real)
      requires bucketSizeM > 0.0
    {
      Looked(row, col, bucketsX, Cell(x - radius, bucketSizeM), Cell(x + radius, bucketSizeM),
             Cell(y - radius, bucketSizeM), Cell(y + radius, bucketSizeM))
    }

    method QueryRadius(x: real, y: real, radius: real, exclude: Option<string>) returns (out: seq<string>)
      requires Valid()
      ensures forall id :: id in out <==> Answer(id, x, y, radius, exclude)
      ensures Listed(out)
    {
      assert bucketSizeM > 0.0;
      hide Valid, Found, Cell, Key, Answer;
      var b0x, b1x := Cell(x - radius, bucketSizeM), Cell(x + radius, bucketSizeM);
      var b0y, b1y := Cell(y - radius, bucketSizeM), Cell(y + radius, bucketSizeM);
      var found: seq<string> := [];
      ghost var cells: set<(int, int)> := {};
      NothingFound(x, y, radius, exclude);
      var row := b0y;
      while row <= b1y
        invariant b0y <= row && (row <= b1y + 1 || row == b0y)
        invariant forall c :: c in cells <==> Looked(c.0, c.1, bucketsX, b0x, b1x, b0y, row - 1)
        invariant Found(found, cells, x, y, radius, exclude)
        decreases b1y - row
      {
        var col := b0x;
        while col <= b1x
          invariant b0x <= col && (col <= b1x + 1 || col == b0x)
          invariant forall c :: c in cells <==>
            Looked(c.0, c.1, bucketsX, b0x, b1x, b0y, row - 1) || Looked(c.0, c.1, bucketsX, b0x, col - 1, row, row)
          invariant Found(found, cells, x, y, radius, exclude)
          decreases b1x - col
        {
          if col < 0 || row < 0 || col >= bucketsX { col := col + 1; continue; }
          found := ScanBucket(found, cells, row, col, x, y, radius, exclude);
          cells := cells + {(row, col)};
          col := col + 1;
        }
        row := row + 1;
      }
      assert forall c :: c in cells <==> InRange(c.0, c.1, x, y, radius);
      out := Sort(LexLe, found);
      FoundIsAnswer(found, cells, x, y, radius, exclude);
      SortedOnce(found);
    }

    lemma NothingFound(x: real, y: real, radius: real, exclude: Option<string>)
      ensures Found([], {}, x, y, radius, exclude)
    {
    }

    lemma FoundIsAnswer(out: seq<string>, cells: set<(int, int)>, x: real, y: real, radius: real, exclude: Option<string>)
      requires bucketSizeM > 0.0 && Found(out, cells, x, y, radius, exclude)
      requires forall c :: c in cells <==> InRange(c.0, c.1, x, y, radius)
      ensures forall id :: id in out <==> Answer(id, x, y, radius, exclude)
      ensures forall i, j :: 0 <= i < j < |out| ==> out[i] != out[j]
    {
      hide InRange, Key, Near;
      forall id ensures id in out <==> Answer(id, x, y, radius, exclude) {
        if id in out {
          var c :| c in cells && Key(c.0, c.1, bucketsX) == positions[id].bucket;
          assert InRange(c.0, c.1, x, y, radius);
        }
        if Answer(id, x, y, radius, exclude) {
          var row, col :| Key(row, col, bucketsX) == positions[id].bucket && InRange(row, col, x, y, radius);
          assert (row, col) in cells;
        }
      }
    }

    // The index changes nothing for an entity inside the grid: it is found exactly when it is within the radius.
    lemma InGridIsExact(id: string, x: real, y: real, radius: real, exclude: Option<string>)
      requires Valid() && radius >= 0.0 && id in positions && InGrid(positions[id].x, positions[id].y)
      ensures Answer(id, x, y, radius, exclude) <==> Some(id) != exclude && Near(positions[id], x, y, radius)
    {
      var e := positions[id];
      if Some(id) != exclude && Near(e, x, y, radius) {
        DiscInRectangle(e, x, y, radius, bucketSizeM);
        hide Cell, Key, Near;
        assert InRange(Cell(e.y, bucketSizeM), Cell(e.x, bucketSizeM), x, y, radius);
      }
    }
  }

  // Once each, in order.
  ghost predicate Listed(ids: seq<string>) {
    (forall i, j :: 0 <= i < j < |ids| ==> LexLe(ids[i], ids[j])) && forall i, j :: 0 <= i < j < |ids| ==> ids[i] != ids[j]
  }

  // Sorting a list without repeats: the same elements, each once, in order.
  lemma SortedOnce(found: seq<string>)
    requires forall i, j :: 0 <= i < j < |found| ==> found[i] != found[j]
    ensures forall id :: id in Sort(LexLe, found) <==> id in found
    ensures Listed(Sort(LexLe, found))
  {
    LexIsTotalOrder();
    SortIsSorted(LexLe, found);
    SortedSameElements(LexLe, found);
    NoRepeats(found);
    hide LexLe, Sort, TotalOrder;
    OnceEach(Sort(LexLe, found));
  }

  lemma OnceEach(xs: seq<string>)
    requires forall x :: multiset(xs)[x] <= 1
    ensures forall i, j :: 0 <= i < j < |xs| ==> xs[i] != xs[j]
  {
    forall i, j | 0 <= i < j < |xs| ensures xs[i] != xs[j] {
      assert xs == xs[..j] + xs[j..];
      assert multiset(xs) == multiset(xs[..j]) + multiset(xs[j..]);
      assert xs[i] == xs[..j][i] && xs[j] == xs[j..][0];
      assert xs[i] in multiset(xs[..j]) && xs[j] in multiset(xs[j..]);
      assert multiset(xs)[xs[i]] == multiset(xs[..j])[xs[i]] + multiset(xs[j..])[xs[i]];
    }
  }

  lemma {:induction false} NoRepeats(xs: seq<string>)
    requires forall i, j :: 0 <= i < j < |xs| ==> xs[i] != xs[j]
    ensures forall x :: multiset(xs)[x] <= 1
  {
    if xs != [] {
      NoRepeats(xs[1..]);
      assert xs == [xs[0]] + xs[1..];
      assert xs[0] !in xs[1..];
    }
  }
}
