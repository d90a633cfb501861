// Base64 (section 4 of RFC 4648) as the chunk codec writes and reads it (packages/spatial/src/codec/chunk-rle.ts).
module Base64 {
  import opened Wrappers

  type byte = x: int | 0 <= x < 256

  type sextet = x: int | 0 <= x < 64

  // The alphabet: A-Z, a-z, 0-9, + and /.
  function Letter(v: sextet): char {
    if v < 26 then (v + 65) as char
    else if v < 52 then (v + 71) as char
    else if v < 62 then (v - 4) as char
    else if v == 62 then '+'
    else '/'
  }

  function ValueOf(c: char): Option<sextet> {
    if 'A' <= c <= 'Z' then Some(c as int - 65)
    else if 'a' <= c <= 'z' then Some(c as int - 71)
    else if '0' <= c <= '9' then Some(c as int + 4)
    else if c == '+' then Some(62)
    else if c == '/' then Some(63)
    else None
  }

  lemma LetterValue(v: sextet)
    ensures ValueOf(Letter(v)) == Some(v) && Letter(v) != '='
  {
  }

  // ---- writing -------------------------------------------------------------------------------------------------------------------

  // The 24 bits of up to three bytes.
  function Bits(a: byte, b: byte, c: byte): nat { a * 65536 + b * 256 + c }

  // The letters of 24 bits of which `many` bytes are there.
  function Letters(n: nat, many: nat): (q: string)
    ensures |q| == 4
  {
    [Letter(n / 262144 % 64), Letter(n / 4096 % 64), if many > 1 then Letter(n / 64 % 64) else '=',
     if many > 2 then Letter(n % 64) else '=']
  }

  function Quad(bytes: seq<byte>): (q: string)
    requires bytes != []
    ensures |q| == 4
  {
    Letters(Bits(bytes[0], if |bytes| > 1 then bytes[1] else 0, if |bytes| > 2 then bytes[2] else 0), |bytes|)
  }

  function Encoded(bytes: seq<byte>): string {
    if bytes == [] then "" else Quad(bytes) + (if |bytes| > 3 then Encoded(bytes[3..]) else "")
  }

  method ToBase64(bytes: seq<byte>) returns (out: string)
    ensures out == Encoded(bytes)
  {
    hide Quad, Encoded, EncodedFrom;
    out := "";
    var i := 0;
    EncodedEnds(bytes, i);
    while i < |bytes|
      invariant out + EncodedFrom(bytes, i) == Encoded(bytes)
    {
      EncodedStep(bytes, i);
      var quad := WriteQuad(bytes, i);
      Regroup(out, quad, EncodedFrom(bytes, i + 3));
      out := out + quad;
      i := i + 3;
    }
    EncodedEnds(bytes, i);
  }

  lemma Regroup(a: string, b: string, c: string)
    ensures a + (b + c) == a + b + c
  {
  }

  lemma EncodedEnds(bytes: seq<byte>, i: nat)
    ensures i == 0 ==> "" + EncodedFrom(bytes, i) == Encoded(bytes)
    ensures i >= |bytes| ==> EncodedFrom(bytes, i) == "" && forall s: string :: s + "" == s
  {
    hide Quad;
    assert bytes[0..] == bytes;
    if bytes == [] { EncodedNothing(); }
    assert "" + EncodedFrom(bytes, i) == EncodedFrom(bytes, i);
    forall s: string ensures s + "" == s {}
  }

  // What is written from a place on.
  function EncodedFrom(bytes: seq<byte>, i: nat): string { if i < |bytes| then Encoded(bytes[i..]) else "" }

  lemma EncodedStep(bytes: seq<byte>, i: nat)
    requires i < |bytes|
    ensures EncodedFrom(bytes, i) == Quad(bytes[i..]) + EncodedFrom(bytes, i + 3)
  {
    hide Quad;
    assert i + 3 < |bytes| ==> bytes[i..][3..] == bytes[i + 3..];
  }

  method WriteQuad(bytes: seq<byte>, i: nat) returns (quad: string)
    requires i < |bytes|
    ensures quad == Quad(bytes[i..])
  {
    hide Letter;
    var a, b, c := bytes[i], if i + 1 < |bytes| then bytes[i + 1] else 0, if i + 2 < |bytes| then bytes[i + 2] else 0;
    var n := Bits(a, b, c);
    quad := [Letter(n / 262144 % 64), Letter(n / 4096 % 64)];
    quad := quad + [if i + 1 < |bytes| then Letter(n / 64 % 64) else '='];
    quad := quad + [if i + 2 < |bytes| then Letter(n % 64) else '='];
  }

  // ---- reading --------------------------------------------------------------------------------------------------------------------

  function Pad(s: string): (p: nat)
    ensures p <= 2
    ensures |s| % 4 == 0 && p > 0 ==> |s| >= 4
  {
    if |s| >= 2 && s[|s| - 2] == '=' && s[|s| - 1] == '=' then 2
    else if |s| >= 1 && s[|s| - 1] == '=' then 1
    else 0
  }

  // The bits of the letters of a group, whose last `pad` places may be padding.
  function GroupBits(q: string, pad: nat): Option<nat> {
    if q == "" then Some(0)
    else
      var k := |q| - 1;
      var before := GroupBits(q[..k], if pad > 0 then pad - 1 else 0);
      var v := if q[k] == '=' && pad > 0 then Some(0) else ValueOf(q[k]);
      if before.None? || v.None? then None else Some(before.value * 64 + v.value)
  }

  function Triple(n: nat): seq<byte> { [n / 65536 % 256, n / 256 % 256, n % 256] }

  function Groups(s: string, pad: nat): Option<seq<byte>>
    requires |s| % 4 == 0
    decreases |s|
  {
    if s == "" then Some([])
    else
      var n := GroupBits(s[..4], if |s| == 4 then pad else 0);
      var rest := Groups(s[4..], pad);
      if n.None? || rest.None? then None else Some(Triple(n.value) + rest.value)
  }

  lemma {:induction false} GroupsLength(s: string, pad: nat)
    requires |s| % 4 == 0
    ensures Groups(s, pad).Some? ==> |Groups(s, pad).value| == |s| / 4 * 3
  {
    hide GroupBits;
    if s != "" { GroupsLength(s[4..], pad); }
  }

  function Decoded(s: string): Option<seq<byte>> {
    if |s| % 4 != 0 then None
    else
      var all := Groups(s, Pad(s));
      GroupsLength(s, Pad(s));
      if all.None? then None else Some(all.value[..|s| / 4 * 3 - Pad(s)])
  }

  function Prepend(done: seq<byte>, rest: Option<seq<byte>>): Option<seq<byte>> {
    if rest.None? then None else Some(done + rest.value)
  }

  lemma GroupsStep(s: string, pad: nat, done: seq<byte>)
    requires |s| % 4 == 0 && s != ""
    ensures var n := GroupBits(s[..4], if |s| == 4 then pad else 0);
      Prepend(done, Groups(s, pad)) == if n.None? then None else Prepend(done + Triple(n.value), Groups(s[4..], pad))
  {
    hide GroupBits, Triple;
    var n, rest := GroupBits(s[..4], if |s| == 4 then pad else 0), Groups(s[4..], pad);
    if n.Some? && rest.Some? {
      assert done + (Triple(n.value) + rest.value) == done + Triple(n.value) + rest.value;
    }
  }

  // The bits of the group at `i`.
  method ReadGroup(s: string, i: nat) returns (n: Option<nat>)
    requires i + 4 == |s| || i + 8 <= |s|
    ensures n == GroupBits(s[i..i + 4], if i + 4 == |s| then Pad(s) else 0)
  {
    ghost var q := s[i..i + 4];
    ghost var pad := if i + 4 == |s| then Pad(s) else 0;
    var signs := Pad(s);
    hide GroupBits, Pad, ValueOf;
    var bits: nat := 0;
    BitsStart(q, pad);
    for k := 0 to 4
      invariant GroupBits(q[..k], Left(pad, k)) == Some(bits)
    {
      BitsStep(q, pad, k, bits);
      if s[i + k] == '=' && i + k >= |s| - signs {
        bits := bits * 64;
      } else {
        var v := ValueOf(s[i + k]);
        if v.None? { NoBits(q, pad, k); return None; }
        bits := bits * 64 + v.value;
      }
    }
    assert q[..4] == q;
    n := Some(bits);
  }

  // How many of the last places of a group, up to the k-th, may be padding.
  function Left(pad: nat, k: nat): nat { if pad + k > 4 then pad + k - 4 else 0 }

  lemma BitsStart(q: string, pad: nat)
    requires |q| == 4 && pad <= 2
    ensures GroupBits(q[..0], Left(pad, 0)) == Some(0) && Left(pad, 4) == pad
  {
  }

  lemma BitsStep(q: string, pad: nat, k: nat, bits: nat)
    requires |q| == 4 && k < 4 && GroupBits(q[..k], Left(pad, k)) == Some(bits)
    ensures var v := if q[k] == '=' && pad + k >= 4 then Some(0) else ValueOf(q[k]);
      GroupBits(q[..k + 1], Left(pad, k + 1)) == if v.None? then None else Some(bits * 64 + v.value)
  {
    hide ValueOf;
    assert q[..k + 1][..k] == q[..k];
  }

  lemma NoBits(q: string, pad: nat, k: nat)
    requires |q| == 4 && k < 4 && pad <= 2 && GroupBits(q[..k + 1], Left(pad, k + 1)).None?
    ensures GroupBits(q, pad).None?
    decreases 4 - k
  {
    if k == 3 {
      assert q[..4] == q;
    } else {
      assert q[..k + 2][..k + 1] == q[..k + 1];
      NoBits(q, pad, k + 1);
    }
  }

  method FromBase64(s: string) returns (r: Option<seq<byte>>)
    ensures r == Decoded(s)
  {
    hide *;
    if |s| % 4 != 0 { NotFours(s); return None; }
    ghost var n := |s| / 4;
    var pad := Pad(s);
    PadFits(s);
    var out := new byte[|s| / 4 * 3 - pad];
    var o, i := 0, 0;
    ghost var g, done: seq<byte> := 0, [];
    RestAtStart(s, n, pad);
    while i < |s|
      invariant |s| == 4 * n && g <= n && i == 4 * g && |done| == 3 * g
      invariant Prepend(done, Rest(s, n, g, pad)) == Groups(s, pad)
      invariant o == (if |done| <= out.Length then |done| else out.Length) && out[..o] == done[..o]
    {
      RestStep(s, n, g, pad, done);
      var bits := ReadGroup(s, i);
      if bits.None? { NoGroups(s); return None; }
      o := PutTriple(out, o, bits.value, done);
      done := done + Triple(bits.value);
      i, g := i + 4, g + 1;
    }
    GroupsAll(s, n, pad, done);
    assert out[..] == out[..o];
    r := Some(out[..]);
  }

  // What is read of the groups from the g-th of n on.
  function Rest(s: string, n: nat, g: nat, pad: nat): Option<seq<byte>>
    requires |s| == 4 * n && g <= n
  {
    Groups(s[4 * g..], pad)
  }

  lemma PadFits(s: string)
    requires |s| % 4 == 0
    ensures |s| / 4 * 3 >= Pad(s) && |s| == 4 * (|s| / 4)
  {
  }

  lemma RestAtStart(s: string, n: nat, pad: nat)
    requires |s| == 4 * n
    ensures Prepend([], Rest(s, n, 0, pad)) == Groups(s, pad)
  {
    hide Groups;
    assert s[4 * 0..] == s;
    PrependNothing(Groups(s, pad));
  }

  lemma RestStep(s: string, n: nat, g: nat, pad: nat, done: seq<byte>)
    requires |s| == 4 * n && g < n
    ensures var q := GroupBits(s[4 * g..4 * g + 4], if 4 * g + 4 == |s| then pad else 0);
      && (q.None? ==> Prepend(done, Rest(s, n, g, pad)) == None)
      && (q.Some? ==> Prepend(done, Rest(s, n, g, pad)) == Prepend(done + Triple(q.value), Rest(s, n, g + 1, pad)) && |Triple(q.value)| == 3)
  {
    var t := s[4 * g..];
    GroupsStep(t, pad, done);
    hide GroupBits, Groups, Prepend;
    assert t[..4] == s[4 * g..4 * g + 4] && t[4..] == s[4 * (g + 1)..];
  }

  lemma NotFours(s: string)
    requires |s| % 4 != 0
    ensures Decoded(s) == None
  {
  }

  lemma NoGroups(s: string)
    requires |s| % 4 == 0 && Groups(s, Pad(s)) == None
    ensures Decoded(s) == None
  {
  }

  lemma GroupsAll(s: string, n: nat, pad: nat, done: seq<byte>)
    requires |s| == 4 * n && pad == Pad(s) && Prepend(done, Rest(s, n, n, pad)) == Groups(s, pad)
    ensures |s| / 4 * 3 - pad <= |done| && Decoded(s) == Some(done[..|s| / 4 * 3 - pad])
  {
    hide Pad, GroupBits, Triple;
    GroupsEnd(s[4 * n..], pad);
    GroupsLength(s, pad);
    hide Groups;
    assert done + [] == done;
  }

  lemma PrependNothing(r: Option<seq<byte>>)
    ensures Prepend([], r) == r
  {
    if r.Some? { assert [] + r.value == r.value; }
  }

  lemma ThreeBytes(n: nat)
    ensures |Triple(n)| == 3
  {
  }

  lemma TripleIs(n: nat, done: seq<byte>)
    ensures |Triple(n)| == 3
    ensures done + [n / 65536 % 256] + [n / 256 % 256] + [n % 256] == done + Triple(n)
  {
  }

  lemma GroupsEnd(s: string, pad: nat)
    requires s == ""
    ensures Groups(s, pad) == Some([])
  {
  }

  // Writes the next three bytes, as far as there is room for them.
  method PutTriple(out: array<byte>, o: nat, n: nat, ghost done: seq<byte>) returns (next: nat)
    requires o == (if |done| <= out.Length then |done| else out.Length) && out[..o] == done[..o]
    modifies out
    ensures next == (if |done| + 3 <= out.Length then |done| + 3 else out.Length) && out[..next] == (done + Triple(n))[..next]
  {
    TripleIs(n, done);
    hide Triple;
    var x, y, z := n / 65536 % 256, n / 256 % 256, n % 256;
    next := Put(out, o, x, done);
    next := Put(out, next, y, done + [x]);
    next := Put(out, next, z, done + [x] + [y]);
  }

  // Writes the next byte, when there is room for it.
  method Put(out: array<byte>, o: nat, b: byte, ghost done: seq<byte>) returns (next: nat)
    requires o == (if |done| <= out.Length then |done| else out.Length) && out[..o] == done[..o]
    modifies out
    ensures next == (if |done| + 1 <= out.Length then |done| + 1 else out.Length) && out[..next] == (done + [b])[..next]
  {
    next := o;
    if o < out.Length {
      out[o] := b;
      next := o + 1;
      assert out[..o] == done;
    } else {
      assert (done + [b])[..o] == done[..o];
    }
  }

  // ---- the round trip --------------------------------------------------------------------------------------------------------------

  lemma DigitsOfBits(n: nat)
    requires n < 16777216
    ensures ((n / 262144 % 64 * 64 + n / 4096 % 64) * 64 + n / 64 % 64) * 64 + n % 64 == n
  {
    assert n / 262144 % 64 == n / 262144;
    assert n / 4096 == n / 262144 * 64 + n / 4096 % 64;
    assert n / 64 == n / 4096 * 64 + n / 64 % 64;
  }

  lemma TripleOfBits(a: byte, b: byte, c: byte)
    ensures Triple(Bits(a, b, c)) == [a, b, c]
  {
    var n := Bits(a, b, c);
    assert n / 65536 == a && n / 256 == a * 256 + b;
  }

  lemma FourLetters(q: string, pad: nat, x: sextet, y: sextet, z: sextet, w: sextet)
    requires |q| == 4 && pad <= 2 && q[0] == Letter(x) && q[1] == Letter(y)
    requires if pad == 2 then q[2] == '=' && z == 0 else q[2] == Letter(z)
    requires if pad >= 1 then q[3] == '=' && w == 0 else q[3] == Letter(w)
    ensures GroupBits(q, pad) == Some(((x * 64 + y) * 64 + z) * 64 + w)
  {
    LetterValue(x); LetterValue(y); LetterValue(z); LetterValue(w);
    hide Letter, ValueOf;
    var none := q[..0];
    assert none == "" && GroupBits(none, 0) == Some(0);
    assert q[..1][..0] == none && q[..2][..1] == q[..1] && q[..3][..2] == q[..2] && q[..3] == q[..|q| - 1];
    assert GroupBits(q[..1], 0) == Some(x as nat);
    assert GroupBits(q[..2], 0) == Some(x * 64 + y);
    assert GroupBits(q[..3], if pad > 0 then pad - 1 else 0) == Some((x * 64 + y) * 64 + z);
  }

  lemma ShortBits(a: byte, b: byte)
    ensures Bits(a, b, 0) % 64 == 0 && Bits(a, 0, 0) / 64 % 64 == 0
  {
    Multiple(Bits(a, b, 0), a * 1024 + b * 4);
    Multiple(Bits(a, 0, 0), a * 1024);
    Multiple(a * 1024, a * 16);
  }

  lemma Multiple(n: nat, k: nat)
    requires n == 64 * k
    ensures n % 64 == 0 && n / 64 == k
  {
  }

  lemma LettersBits(n: nat, many: nat)
    requires n < 16777216 && many >= 1
    requires (many <= 2 ==> n % 64 == 0) && (many <= 1 ==> n / 64 % 64 == 0)
    ensures GroupBits(Letters(n, many), if many >= 3 then 0 else 3 - many) == Some(n)
  {
    DigitsOfBits(n);
    var x, y, z, w := n / 262144 % 64, n / 4096 % 64, n / 64 % 64, n % 64;
    var q := Letters(n, many);
    assert q == [Letter(x), Letter(y), if many > 1 then Letter(z) else '=', if many > 2 then Letter(w) else '='];
    hide Letters, Letter, GroupBits;
    FourLetters(q, if many >= 3 then 0 else 3 - many, x, y, z, w);
  }

  lemma QuadBits(bytes: seq<byte>)
    requires bytes != []
    ensures var n := GroupBits(Quad(bytes), if |bytes| >= 3 then 0 else 3 - |bytes|);
      n.Some? && Triple(n.value) == [bytes[0], if |bytes| > 1 then bytes[1] else 0, if |bytes| > 2 then bytes[2] else 0]
  {
    hide Letters, GroupBits;
    var a, b, c := bytes[0], if |bytes| > 1 then bytes[1] else 0, if |bytes| > 2 then bytes[2] else 0;
    ShortBits(a, b);
    TripleOfBits(a, b, c);
    BitsFit(a, b, c);
    hide Bits, Triple;
    LettersBits(Bits(a, b, c), |bytes|);
  }

  lemma BitsFit(a: byte, b: byte, c: byte)
    ensures Bits(a, b, c) < 16777216
  {
  }

  // How many groups of letters n bytes take, and how much padding.
  function Thirds(n: nat): nat { (n + 2) / 3 }

  function PadOf(n: nat): nat { (3 - n % 3) % 3 }

  lemma ThreeLess(n: nat)
    ensures n > 3 ==> Thirds(n) == Thirds(n - 3) + 1 && PadOf(n) == PadOf(n - 3)
    ensures 1 <= n <= 3 ==> Thirds(n) == 1 && PadOf(n) == 3 - n
    ensures Thirds(n) * 3 - PadOf(n) == n
  {
    DivThree(n);
    if n > 3 { DivThree(n - 3); }
  }

  lemma DivThree(n: nat)
    ensures var q, r := n / 3, n % 3;
      && 0 <= r < 3 && n == 3 * q + r
      && Thirds(n) == (if r == 0 then q else q + 1) && PadOf(n) == (if r == 0 then 0 else 3 - r)
  {
  }

  lemma {:induction false} EncodedShape(bytes: seq<byte>)
    requires bytes != []
    ensures |Encoded(bytes)| == 4 * Thirds(|bytes|)
    ensures Pad(Encoded(bytes)) == PadOf(|bytes|)
  {
    LastLetters(bytes);
    ThreeLess(|bytes|);
    hide Quad, Thirds, PadOf;
    if |bytes| > 3 {
      EncodedShape(bytes[3..]);
      ThreeLess(|bytes| - 3);
      PadBehind(Quad(bytes), Encoded(bytes[3..]));
    } else {
      assert Encoded(bytes) == Quad(bytes);
    }
  }

  lemma PadBehind(q: string, rest: string)
    requires |rest| >= 4
    ensures Pad(q + rest) == Pad(rest)
  {
  }

  ghost predicate GivesBytes(s: string, pad: nat, bytes: seq<byte>) {
    && |s| % 4 == 0
    && Groups(s, pad).Some? && bytes <= Groups(s, pad).value
  }

  lemma GroupsMore(q: string, rest: string, pad: nat, t: seq<byte>, tail: seq<byte>)
    requires |q| == 4 && rest != "" && GivesBytes(rest, pad, tail)
    requires GroupBits(q, 0).Some? && Triple(GroupBits(q, 0).value) == t
    ensures GivesBytes(q + rest, pad, t + tail)
  {
    hide GroupBits, Triple, Groups;
    var s := q + rest;
    assert |s| == 4 + |rest|;
    assert s[..4] == q && s[4..] == rest;
    GroupsUnfold(s, pad);
  }

  lemma GroupsUnfold(s: string, pad: nat)
    requires |s| % 4 == 0 && s != ""
    ensures var n := GroupBits(s[..4], if |s| == 4 then pad else 0); var rest := Groups(s[4..], pad);
      Groups(s, pad) == if n.None? || rest.None? then None else Some(Triple(n.value) + rest.value)
  {
    hide GroupBits, Triple;
  }

  lemma {:induction false} EncodedGroups(bytes: seq<byte>, pad: nat)
    requires bytes != [] && pad == PadOf(|bytes|)
    ensures GivesBytes(Encoded(bytes), pad, bytes)
  {
    ThreeLess(|bytes|);
    hide GroupBits, Quad, Triple, PadOf, GivesBytes;
    if |bytes| > 3 {
      QuadOfThree(bytes);
      var tail := bytes[3..];
      EncodedGroups(tail, pad);
      EncodedShape(tail);
      EncodedMore(bytes);
      hide Encoded;
      GroupsMore(Quad(bytes), Encoded(tail), pad, bytes[..3], tail);
      assert bytes == bytes[..3] + tail;
    } else {
      EncodedLast(bytes, pad);
    }
  }

  lemma QuadOfThree(bytes: seq<byte>)
    requires |bytes| > 3
    ensures var n := GroupBits(Quad(bytes), 0); n.Some? && Triple(n.value) == bytes[..3]
  {
    QuadBits(bytes);
    hide GroupBits, Quad, Triple;
    assert bytes[..3] == [bytes[0], bytes[1], bytes[2]];
  }

  lemma EncodedMore(bytes: seq<byte>)
    requires |bytes| > 3
    ensures Encoded(bytes) == Quad(bytes) + Encoded(bytes[3..])
  {
    hide Quad;
  }

  lemma EncodedLast(bytes: seq<byte>, pad: nat)
    requires 1 <= |bytes| <= 3 && pad == 3 - |bytes|
    ensures GivesBytes(Encoded(bytes), pad, bytes)
  {
    QuadBits(bytes);
    OneQuad(bytes);
    hide GroupBits, Quad, Triple, Encoded;
    var t := [bytes[0], if |bytes| > 1 then bytes[1] else 0, if |bytes| > 2 then bytes[2] else 0];
    GroupsOne(Quad(bytes), pad, t);
    assert bytes <= t;
  }

  lemma OneQuad(bytes: seq<byte>)
    requires 1 <= |bytes| <= 3
    ensures Encoded(bytes) == Quad(bytes)
  {
    hide Quad;
  }

  lemma GroupsOne(q: string, pad: nat, t: seq<byte>)
    requires |q| == 4 && GroupBits(q, pad).Some? && Triple(GroupBits(q, pad).value) == t
    ensures Groups(q, pad) == Some(t)
  {
    hide GroupBits, Triple, Groups;
    assert q[..4] == q && q[4..] == "";
    GroupsEnd(q[4..], pad);
    GroupsUnfold(q, pad);
    assert t + [] == t;
  }

  lemma LastLetters(bytes: seq<byte>)
    requires bytes != []
    ensures Pad(Quad(bytes)) == if |bytes| >= 3 then 0 else 3 - |bytes|
  {
    hide Bits;
  }

  // What is written reads back, whatever the bytes.
  lemma Base64RoundTrip(bytes: seq<byte>)
    ensures Decoded(Encoded(bytes)) == Some(bytes)
    ensures |Encoded(bytes)| == 4 * Thirds(|bytes|)
  {
    hide Groups, Encoded, Pad, Thirds, PadOf;
    ThreeLess(|bytes|);
    if bytes != [] {
      EncodedShape(bytes);
      EncodedGroups(bytes, PadOf(|bytes|));
      GroupsLength(Encoded(bytes), Pad(Encoded(bytes)));
      var all := Groups(Encoded(bytes), Pad(Encoded(bytes))).value;
      assert |all| - Pad(Encoded(bytes)) == |bytes| && all[..|bytes|] == bytes;
    } else {
      EncodedNothing();
    }
  }

  lemma EncodedNothing()
    ensures Encoded([]) == "" && Groups("", 0) == Some([]) && Pad("") == 0 && Thirds(0) == 0
  {
  }
}
