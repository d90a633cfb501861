// The run-length code of a layer chunk: pairs of a LEB128 run length and a little-endian value, in base64
// (packages/spatial/src/codec/chunk-rle.ts).
module ChunkRle {
  import opened Wrappers
  import opened Base64

  datatype CodecError = BadBase64 | BadVarint | RunOverflow | RunUnderflow | TrailingBytes | ZeroRun

  const WORD := 0x1_0000_0000

  type width = w: int | 1 <= w <= 2 witness 1

  // What is kept of a value: its low bytes.
  function Low(v: nat, w: width): nat { if w == 1 then v % 256 else v % 65536 }

  function Lows(values: seq<nat>, w: width): seq<nat> { seq(|values|, k requires 0 <= k < |values| => Low(values[k], w)) }

  function ValueBytes(v: nat, w: width): seq<byte> { if w == 1 then [v % 256] else [v % 256, v / 256 % 256] }

  // ---- writing ---------------------------------------------------------------------------------------------------------------------

  // Seven bits a byte, the low ones first; the shift is one of 32 bits.
  function Varint(r: nat): (b: seq<byte>)
    ensures 0 < |b|
  {
    if r < 128 then [r] else [r % 128 + 128] + Varint(r % WORD / 128)
  }

  function RunLength(values: seq<nat>): (n: nat)
    requires values != []
    ensures 1 <= n <= |values|
  {
    if |values| > 1 && values[1] == values[0] then 1 + RunLength(values[1..]) else 1
  }

  lemma {:induction false} RunMeans(values: seq<nat>)
    requires values != []
    ensures var n := RunLength(values);
      && (forall k :: 0 <= k < n ==> values[k] == values[0])
      && (n < |values| ==> values[n] != values[0])
  {
    if |values| > 1 && values[1] == values[0] {
      RunMeans(values[1..]);
      assert forall k :: 1 <= k < |values| ==> values[k] == values[1..][k - 1];
    }
  }

  function Runs(values: seq<nat>, w: width): seq<byte> {
    if values == [] then []
    else
      var n := RunLength(values);
      Varint(n) + ValueBytes(values[0], w) + Runs(values[n..], w)
  }

  function EncodedChunk(values: seq<nat>, w: width): string { Encoded(Runs(values, w)) }

  method EncodeChunkRle(values: seq<nat>, w: width) returns (text: string)
    ensures text == EncodedChunk(values, w)
  {
    hide Varint, ValueBytes, RunLength, Runs, Encoded;
    var bytes: seq<byte> := [];
    var i := 0;
    assert values[0..] == values;
    while i < |values|
      invariant i <= |values| && bytes + Runs(values[i..], w) == Runs(values, w)
    {
      var run := CountRun(values, i);
      RunsStep(values, i, w);
      var length := WriteVarint(run);
      var value := WriteValue(values[i], w);
      Regrouped(bytes, length + value, Runs(values[i + run..], w));
      bytes := bytes + (length + value);
      i := i + run;
    }
    NoRuns(values[i..], w);
    assert bytes + [] == bytes;
    text := ToBase64(bytes);
  }

  lemma Regrouped(a: seq<byte>, b: seq<byte>, c: seq<byte>)
    ensures a + (b + c) == a + b + c
  {
  }

  method CountRun(values: seq<nat>, i: nat) returns (run: nat)
    requires i < |values|
    ensures run == RunLength(values[i..])
  {
    run := 1;
    while i + run < |values| && values[i + run] == values[i]
      invariant 1 <= run && i + run <= |values|
      invariant forall k :: i <= k < i + run ==> values[k] == values[i]
    {
      run := run + 1;
    }
    RunIs(values[i..], run);
  }

  lemma RunsStep(values: seq<nat>, i: nat, w: width)
    requires i < |values|
    ensures var n := RunLength(values[i..]);
      Runs(values[i..], w) == Varint(n) + ValueBytes(values[i], w) + Runs(values[i + n..], w)
  {
    hide Varint, ValueBytes, RunLength;
    assert values[i..][RunLength(values[i..])..] == values[i + RunLength(values[i..])..];
  }

  lemma NoRuns(none: seq<nat>, w: width)
    requires none == []
    ensures Runs(none, w) == []
  {
  }

  lemma RunIs(values: seq<nat>, run: nat)
    requires 1 <= run <= |values|
    requires forall k :: 0 <= k < run ==> values[k] == values[0]
    requires run < |values| ==> values[run] != values[0]
    ensures RunLength(values) == run
  {
    RunMeans(values);
    var n := RunLength(values);
    assert n < |values| ==> values[n] != values[0];
  }

  method WriteVarint(run: nat) returns (bytes: seq<byte>)
    ensures bytes == Varint(run)
  {
    hide Varint;
    bytes := [];
    var r: nat := run;
    while r >= 128
      invariant bytes + Varint(r) == Varint(run)
    {
      VarintStep(r);
      Regrouped(bytes, [r % 128 + 128], Varint(r % WORD / 128));
      bytes := bytes + [r % 128 + 128];
      r := r % WORD / 128;
    }
    VarintStep(r);
    bytes := bytes + [r];
  }

  lemma VarintStep(r: nat)
    ensures Varint(r) == if r < 128 then [r] else [r % 128 + 128] + Varint(r % WORD / 128)
  {
  }

  method WriteValue(v: nat, w: width) returns (bytes: seq<byte>)
    ensures bytes == ValueBytes(v, w)
  {
    bytes := [v % 256];
    if w == 2 { bytes := bytes + [v / 256 % 256]; }
  }

  // ---- reading ----------------------------------------------------------------------------------------------------------------------

  function Scale(k: nat): nat { if k == 0 then 1 else 128 * Scale(k - 1) }

  // A run length and what stands behind it; nothing when the bytes end in it or it goes on past five.
  function ReadVarint(b: seq<byte>, k: nat, run: nat): Option<(nat, seq<byte>)>
    decreases |b|
  {
    if b == [] || k > 4 then None
    else
      var more := run + (b[0] as int) % 128 * Scale(k);
      if b[0] < 128 then Some((more, b[1..])) else ReadVarint(b[1..], k + 1, more)
  }

  lemma {:induction false} ReadShorter(b: seq<byte>, k: nat, run: nat)
    ensures var r := ReadVarint(b, k, run); r.Some? ==> |r.value.1| < |b| && r.value.1 == b[|b| - |r.value.1|..]
  {
    hide Scale;
    if b != [] && k <= 4 { ReadShorter(b[1..], k + 1, run + (b[0] as int) % 128 * Scale(k)); }
  }

  function ReadValue(b: seq<byte>, w: width): nat
    requires |b| >= w
  {
    if w == 1 then b[0] else (b[0] as int) + (b[1] as int) * 256
  }

  function Repeat(v: nat, n: nat): seq<nat> { seq(n, _ => v) }

  function Cells(b: seq<byte>, filled: seq<nat>, count: nat, w: width): Result<seq<nat>, CodecError>
    decreases |b|
  {
    ReadShorter(b, 0, 0);
    if b == [] then (if |filled| == count then Ok(filled) else Err(RunUnderflow))
    else
      match ReadVarint(b, 0, 0)
      case None => Err(BadVarint)
      case Some((run, rest)) =>
        if run == 0 then Err(ZeroRun)
        else if |rest| < w then Err(TrailingBytes)
        else if |filled| + run > count then Err(RunOverflow)
        else Cells(rest[w..], filled + Repeat(ReadValue(rest, w), run), count, w)
  }

  // Longer than any encoding of so many cells.
  predicate TooLong(length: nat, count: nat, w: width) { length > (count * (3 + w) + 2) / 3 * 4 + 4 }

  function DecodedChunk(text: string, count: nat, w: width): Result<seq<nat>, CodecError> {
    if TooLong(|text|, count, w) then Err(RunOverflow)
    else
      var bytes := Decoded(text);
      if bytes.None? then Err(BadBase64) else Cells(bytes.value, [], count, w)
  }

  // Reads a run length from `p` on; `next` is behind it.
  method TakeVarint(bytes: seq<byte>, p: nat) returns (r: Option<(nat, nat)>)
    requires p < |bytes|
    ensures r.None? <==> ReadVarint(bytes[p..], 0, 0).None?
    ensures r.Some? ==> p < r.value.1 <= |bytes| && ReadVarint(bytes[p..], 0, 0) == Some((r.value.0, bytes[r.value.1..]))
  {
    var run: nat, k: nat, next: nat, scale: nat := 0, 0, p, 1;
    while true
      invariant p <= next <= |bytes| && scale == Scale(k)
      invariant ReadVarint(bytes[next..], k, run) == ReadVarint(bytes[p..], 0, 0)
      decreases |bytes| - next
    {
      if next >= |bytes| || k > 4 { return None; }
      var b := bytes[next];
      next := next + 1;
      run := run + (b as int) % 128 * scale;
      if b < 128 { return Some((run, next)); }
      k, scale := k + 1, scale * 128;
    }
  }

  method DecodeChunkRle(text: string, count: nat, w: width) returns (r: Result<seq<nat>, CodecError>)
    ensures r == DecodedChunk(text, count, w)
  {
    hide ReadVarint, ReadValue;
    if TooLong(|text|, count, w) { return Err(RunOverflow); }
    var decoded := FromBase64(text);
    if decoded.None? { return Err(BadBase64); }
    var bytes := decoded.value;
    var out := new nat[count];
    var p: nat, filled: nat := 0, 0;
    assert bytes[0..] == bytes && out[..0] == [];
    while p < |bytes|
      invariant p <= |bytes| && filled <= count
      invariant Cells(bytes[p..], out[..filled], count, w) == Cells(bytes, [], count, w)
      decreases |bytes| - p
    {
      var read := TakeVarint(bytes, p);
      if read.None? { return Err(BadVarint); }
      var run, next := read.value.0, read.value.1;
      if run == 0 { return Err(ZeroRun); }
      if next + w > |bytes| { return Err(TrailingBytes); }
      var v := ReadValue(bytes[next..], w);
      assert bytes[next..][w..] == bytes[next + w..];
      if filled + run > count { return Err(RunOverflow); }
      Fill(out, v, filled, run);
      p, filled := next + w, filled + run;
    }
    assert bytes[p..] == [];
    if filled != count { return Err(RunUnderflow); }
    assert out[..] == out[..filled];
    return Ok(out[..]);
  }

  method Fill(out: array<nat>, v: nat, from: nat, n: nat)
    requires from + n <= out.Length
    modifies out
    ensures out[..from + n] == old(out[..from]) + Repeat(v, n)
  {
    for k := from to from + n
      invariant out[..k] == old(out[..from]) + Repeat(v, k - from)
    {
      out[k] := v;
      assert out[..k + 1] == out[..k] + [v];
      assert Repeat(v, k + 1 - from) == Repeat(v, k - from) + [v];
    }
  }

  // ---- what the reader lets through -----------------------------------------------------------------------------------------------------

  lemma {:induction false} CellsFill(b: seq<byte>, filled: seq<nat>, count: nat, w: width)
    requires forall k :: 0 <= k < |filled| ==> filled[k] == Low(filled[k], w)
    ensures var r := Cells(b, filled, count, w);
      r.Ok? ==> |r.value| == count && filled <= r.value && forall k :: 0 <= k < count ==> r.value[k] == Low(r.value[k], w)
    decreases |b|
  {
    hide ReadVarint;
    ReadShorter(b, 0, 0);
    var read := ReadVarint(b, 0, 0);
    if b != [] && read.Some? {
      var run, rest := read.value.0, read.value.1;
      if run != 0 && |rest| >= w && |filled| + run <= count {
        CellsFill(rest[w..], filled + Repeat(ReadValue(rest, w), run), count, w);
      }
    }
  }

  // Whatever text it is given, what it accepts is just as many cells as were asked for, each within the width.
  lemma DecodedFits(text: string, count: nat, w: width)
    ensures var r := DecodedChunk(text, count, w);
      r.Ok? ==> |r.value| == count && forall k :: 0 <= k < count ==> r.value[k] == Low(r.value[k], w)
  {
    var bytes := Decoded(text);
    if bytes.Some? { CellsFill(bytes.value, [], count, w); }
  }

  // ---- the round trip ------------------------------------------------------------------------------------------------------------------------

  lemma {:induction false} VarintReads(r: nat, rest: seq<byte>, k: nat, run: nat)
    requires k <= 4 && r < WORD && r < Scale(5 - k)
    ensures ReadVarint(Varint(r) + rest, k, run) == Some((run + r * Scale(k), rest))
    decreases r
  {
    VarintStep(r);
    hide Varint;
    var b := Varint(r) + rest;
    if r < 128 {
      assert b[0] == r && b[1..] == rest;
    } else {
      assert r % WORD == r;
      assert b[1..] == Varint(r / 128) + rest && b[0] == r % 128 + 128;
      assert Scale(1) == 128 && k < 4;
      assert Scale(5 - k) == 128 * Scale(4 - k) && Scale(k + 1) == 128 * Scale(k);
      VarintReads(r / 128, rest, k + 1, run + r % 128 * Scale(k));
      Regroup(r, Scale(k));
      hide Scale;
    }
  }

  lemma Regroup(r: nat, s: nat)
    ensures r % 128 * s + r / 128 * (128 * s) == r * s
  {
    assert r == r % 128 + r / 128 * 128;
    assert r * s == (r % 128 + r / 128 * 128) * s == r % 128 * s + r / 128 * 128 * s;
    assert r / 128 * 128 * s == r / 128 * (128 * s);
  }

  lemma ScaleFive()
    ensures Scale(5) == 0x8_0000_0000 && Scale(0) == 1
  {
    assert Scale(1) == 128 && Scale(2) == 16384 && Scale(3) == 2097152 && Scale(4) == 268435456;
  }

  lemma ValueReads(v: nat, w: width, rest: seq<byte>)
    ensures |ValueBytes(v, w)| == w && ReadValue(ValueBytes(v, w) + rest, w) == Low(v, w)
  {
    TwoBytes(v);
  }

  lemma TwoBytes(v: nat)
    ensures v % 65536 == v % 256 + v / 256 % 256 * 256
  {
    var q := v / 256;
    RestOf(v, q / 256, v % 256 + q % 256 * 256);
  }

  lemma RestOf(v: nat, k: nat, r: nat)
    requires v == 65536 * k + r && r < 65536
    ensures v % 65536 == r
  {
  }

  lemma {:induction false} RunsRead(values: seq<nat>, w: width, filled: seq<nat>)
    requires |values| < WORD
    ensures Cells(Runs(values, w), filled, |filled| + |values|, w) == Ok(filled + Lows(values, w))
    decreases |values|
  {
    hide Varint, ReadVarint, ValueBytes, ReadValue, RunLength, Scale, Lows, Low;
    if values == [] {
      assert filled + Lows(values, w) == filled by { assert Lows(values, w) == [] by { NoLows(values, w); } }
    } else {
      var n := RunLength(values);
      var v, tail := ValueBytes(values[0], w), Runs(values[n..], w);
      assert Runs(values, w) == Varint(n) + v + tail;
      hide Runs;
      Regrouped(Varint(n), v, tail);
      ScaleFive();
      VarintReads(n, v + tail, 0, 0);
      ValueReads(values[0], w, tail);
      assert (v + tail)[w..] == tail;
      CellsStep(Varint(n) + (v + tail), filled, |filled| + |values|, w, n, v + tail);
      hide Cells;
      var run := Repeat(Low(values[0], w), n);
      RunsRead(values[n..], w, filled + run);
      RunMeans(values);
      LowsOfRun(values, n, w);
      assert filled + run + Lows(values[n..], w) == filled + (run + Lows(values[n..], w));
    }
  }

  lemma NoLows(none: seq<nat>, w: width)
    requires none == []
    ensures Lows(none, w) == []
  {
  }

  lemma CellsStep(b: seq<byte>, filled: seq<nat>, count: nat, w: width, run: nat, rest: seq<byte>)
    requires b != [] && ReadVarint(b, 0, 0) == Some((run, rest)) && run > 0 && |rest| >= w && |filled| + run <= count
    requires |rest| < |b|
    ensures Cells(b, filled, count, w) == Cells(rest[w..], filled + Repeat(ReadValue(rest, w), run), count, w)
  {
    hide ReadVarint, ReadValue;
  }

  lemma LowsOfRun(values: seq<nat>, n: nat, w: width)
    requires n <= |values| && forall k :: 0 <= k < n ==> values[k] == values[0]
    ensures Lows(values, w) == (if n == 0 then [] else Repeat(Low(values[0], w), n)) + Lows(values[n..], w)
  {
  }

  // ---- the size limit lets every encoding through -------------------------------------------------------------------------------------------------

  lemma {:induction false} VarintShort(r: nat)
    requires 1 <= r < WORD
    ensures |Varint(r)| <= r
  {
    if r >= 128 {
      VarintShort(r / 128);
      hide Varint;
      VarintLonger(r);
      assert r / 128 + 1 <= r;
    }
  }

  lemma VarintLonger(r: nat)
    requires 128 <= r < WORD
    ensures |Varint(r)| == 1 + |Varint(r / 128)|
  {
    hide Varint;
    assert r % WORD == r;
    VarintRest(r, r / 128);
  }

  lemma VarintRest(r: nat, q: nat)
    requires r >= 128 && q == r % WORD / 128
    ensures |Varint(r)| == 1 + |Varint(q)|
  {
  }

  lemma {:induction false} RunsShort(values: seq<nat>, w: width)
    requires |values| < WORD
    ensures |Runs(values, w)| <= |values| * (1 + w)
    decreases |values|
  {
    hide Varint, RunLength;
    if values != [] {
      var n := RunLength(values);
      VarintShort(n);
      RunsShort(values[n..], w);
      assert |Runs(values, w)| == |Varint(n)| + w + |Runs(values[n..], w)|;
      hide Runs;
      assert |values[n..]| * (1 + w) == |values| * (1 + w) - n * (1 + w);
      assert n * (1 + w) >= n + w;
    }
  }

  lemma NotTooLong(values: seq<nat>, w: width)
    requires |values| < WORD
    ensures !TooLong(|EncodedChunk(values, w)|, |values|, w)
  {
    hide Runs, Encoded;
    RunsShort(values, w);
    Base64RoundTrip(Runs(values, w));
    assert |values| * (1 + w) <= |values| * (3 + w);
  }

  // What is written of a chunk reads back as its values, each cut to its width: the size check never refuses an encoding.
  lemma ChunkRoundTrip(values: seq<nat>, w: width)
    requires |values| < WORD
    ensures DecodedChunk(EncodedChunk(values, w), |values|, w) == Ok(Lows(values, w))
  {
    hide TooLong, Encoded, Decoded, Cells, Runs, Lows;
    NotTooLong(values, w);
    Base64RoundTrip(Runs(values, w));
    RunsRead(values, w, []);
    assert [] + Lows(values, w) == Lows(values, w);
  }
}
