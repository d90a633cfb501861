// Base64 as a run file's bytes are read from it (packages/storage/src/run-bundle.ts): by the platform's `atob`, the forgiving-base64
// decode of the WHATWG Infra standard (section 7), which passes over white space and asks for no padding.
module Atob {
  import opened Wrappers
  import opened Base64

  predicate IsBlank(c: char) { c == '\t' || c == '\n' || c == '\U{0C}' || c == '\r' || c == ' ' }

  function Unspaced(s: string): string {
    if s == "" then "" else (if IsBlank(s[0]) then "" else [s[0]]) + Unspaced(s[1..])
  }

  // One or two equals signs at the end of a text of whole groups are left out.
  function Unpadded(t: string): string { if |t| % 4 == 0 then t[..|t| - Pad(t)] else t }

  predicate AllLetters(u: string) { forall k :: 0 <= k < |u| ==> ValueOf(u[k]).Some? }

  function Signs(n: nat): (p: string)
    ensures |p| == n && forall k :: 0 <= k < n ==> p[k] == '='
  {
    seq(n, k requires 0 <= k < n => '=')
  }

  // How many letters the last group lacks; one letter alone is no group.
  function Lacks(n: nat): nat { (4 - n % 4) % 4 }

  function Forgiven(s: string): Option<seq<byte>> {
    var u := Unpadded(Unspaced(s));
    if Lacks(|u|) == 3 || !AllLetters(u) then None else Decoded(u + Signs(Lacks(|u|)))
  }

  method Base64ToBytes(s: string) returns (r: Option<seq<byte>>)
    ensures r == Forgiven(s)
  {
    hide Decoded, Unspaced, Unpadded, AllLetters;
    var t := WithoutSpace(s);
    var u := Unpadded(t);
    var letters := OnlyLetters(u);
    if Lacks(|u|) == 3 || !letters { return None; }
    r := FromBase64(u + Signs(Lacks(|u|)));
  }

  method WithoutSpace(s: string) returns (t: string)
    ensures t == Unspaced(s)
  {
    hide IsBlank, Unspaced;
    t := "";
    assert s[0..] == s && "" + Unspaced(s) == Unspaced(s);
    for k := 0 to |s|
      invariant t + Unspaced(s[k..]) == Unspaced(s)
    {
      UnspacedStep(s, k);
      Regroup(t, [s[k]], Unspaced(s[k + 1..]));
      if !IsBlank(s[k]) { t := t + [s[k]]; }
    }
    NothingLeft(s[|s|..], t);
  }

  lemma NothingLeft(none: string, t: string)
    requires none == ""
    ensures t + Unspaced(none) == t
  {
  }

  lemma UnspacedStep(s: string, k: nat)
    requires k < |s|
    ensures Unspaced(s[k..]) == if IsBlank(s[k]) then Unspaced(s[k + 1..]) else [s[k]] + Unspaced(s[k + 1..])
  {
    hide IsBlank;
    assert s[k..][1..] == s[k + 1..];
    assert "" + Unspaced(s[k + 1..]) == Unspaced(s[k + 1..]);
  }

  method OnlyLetters(u: string) returns (letters: bool)
    ensures letters == AllLetters(u)
  {
    hide ValueOf;
    for k := 0 to |u|
      invariant forall j :: 0 <= j < k ==> ValueOf(u[j]).Some?
    {
      if ValueOf(u[k]).None? { return false; }
    }
    return true;
  }

  // ---- what it takes more -----------------------------------------------------------------------------------------------------------------------

  lemma {:induction false} NothingBlank(s: string)
    requires forall k :: 0 <= k < |s| ==> !IsBlank(s[k])
    ensures Unspaced(s) == s
  {
    if s != "" {
      NothingBlank(s[1..]);
      assert s == [s[0]] + s[1..];
    }
  }

  // White space anywhere makes no difference.
  lemma BlanksPass(a: string, c: char, b: string)
    requires IsBlank(c)
    ensures Forgiven(a + [c] + b) == Forgiven(a + b)
  {
    UnspacedJoins(a + [c], b);
    UnspacedJoins(a, [c]);
    UnspacedJoins(a, b);
    NothingKept(c, Unspaced(a));
    hide Unspaced, Forgiven;
    UnspacedDecides(a + [c] + b, a + b);
  }

  lemma NothingKept(c: char, t: string)
    requires IsBlank(c)
    ensures t + Unspaced([c]) == t
  {
    assert [c][1..] == "";
  }

  lemma UnspacedDecides(s: string, t: string)
    requires Unspaced(s) == Unspaced(t)
    ensures Forgiven(s) == Forgiven(t)
  {
    hide Unspaced, Decoded, Unpadded, AllLetters;
  }

  lemma {:induction false} UnspacedJoins(a: string, b: string)
    ensures Unspaced(a + b) == Unspaced(a) + Unspaced(b)
  {
    hide IsBlank;
    if a == "" {
      assert a + b == b;
    } else {
      assert (a + b)[1..] == a[1..] + b && (a + b)[0] == a[0];
      UnspacedJoins(a[1..], b);
      var one := if IsBlank(a[0]) then "" else [a[0]];
      assert Unspaced(a + b) == one + (Unspaced(a[1..]) + Unspaced(b));
      hide Unspaced;
      assert one + (Unspaced(a[1..]) + Unspaced(b)) == one + Unspaced(a[1..]) + Unspaced(b);
    }
  }

  // ---- the round trip ---------------------------------------------------------------------------------------------------------------------------

  // Groups of letters, but for the last places.
  ghost predicate Lettered(s: string, pad: nat) {
    |s| % 4 == 0 && pad <= |s| && forall k :: 0 <= k < |s| - pad ==> ValueOf(s[k]).Some?
  }

  lemma {:induction false} EncodedLetters(bytes: seq<byte>)
    ensures Lettered(Encoded(bytes), PadOf(|bytes|))
    decreases |bytes|
  {
    ThreeLess(|bytes|);
    hide Quad, ValueOf, PadOf, Thirds, Lettered, Encoded;
    if bytes == [] {
      NoLetters();
    } else if |bytes| > 3 {
      QuadLetters(bytes);
      EncodedMore(bytes);
      EncodedLetters(bytes[3..]);
      LettersMore(Quad(bytes), Encoded(bytes[3..]), PadOf(|bytes|));
    } else {
      QuadLetters(bytes);
      OneQuad(bytes);
    }
  }

  lemma NoLetters()
    ensures Lettered(Encoded([]), PadOf(0))
  {
    EncodedNothing();
  }

  lemma LettersMore(q: string, rest: string, pad: nat)
    requires |q| == 4 && Lettered(q, 0) && Lettered(rest, pad)
    ensures Lettered(q + rest, pad)
  {
    hide ValueOf;
    forall k | 0 <= k < |q + rest| - pad ensures ValueOf((q + rest)[k]).Some? {
      if k >= 4 { assert (q + rest)[k] == rest[k - 4]; }
    }
  }

  lemma QuadLetters(bytes: seq<byte>)
    requires bytes != []
    ensures Lettered(Quad(bytes), if |bytes| >= 3 then 0 else 3 - |bytes|)
  {
    var n := Bits(bytes[0], if |bytes| > 1 then bytes[1] else 0, if |bytes| > 2 then bytes[2] else 0);
    hide Bits;
    assert Quad(bytes) == Letters(n, |bytes|);
    LetterValue(n / 262144 % 64);
    LetterValue(n / 4096 % 64);
    LetterValue(n / 64 % 64);
    LetterValue(n % 64);
    hide Letter, ValueOf;
  }

  lemma LettersAreNotBlank(c: char)
    ensures ValueOf(c).Some? || c == '=' ==> !IsBlank(c)
  {
  }

  // What is written of bytes is read as them.
  lemma ForgivenRoundTrip(bytes: seq<byte>)
    ensures Forgiven(Encoded(bytes)) == Some(bytes)
  {
    hide *;
    Base64RoundTrip(bytes);
    EncodedLetters(bytes);
    PadIs(bytes);
    WholeGroups(Encoded(bytes));
  }

  // Of a text in whole groups with its padding it reads what the strict reader does.
  lemma WholeGroups(s: string)
    requires Lettered(s, Pad(s))
    ensures Forgiven(s) == Decoded(s)
  {
    SignsBehind(s);
    NothingSpaced(s);
    Missing(|s|, Pad(s));
    hide Decoded, Unspaced, Pad, ValueOf, Lacks;
    Completed(s, s[..|s| - Pad(s)], Pad(s));
  }

  lemma Missing(n: nat, p: nat)
    requires n % 4 == 0 && p <= 2 && p <= n
    ensures Lacks(n - p) == p
  {
    assert n == 4 * (n / 4);
    assert p > 0 ==> (n - p) / 4 == n / 4 - 1;
  }

  lemma Completed(s: string, u: string, n: nat)
    requires n <= |s| && u == s[..|s| - n] && forall k :: |s| - n <= k < |s| ==> s[k] == '='
    ensures u + Signs(n) == s
  {
  }

  lemma NothingSpaced(s: string)
    requires Lettered(s, Pad(s))
    ensures Unspaced(s) == s
  {
    SignsBehind(s);
    hide ValueOf, IsBlank, Pad;
    forall k | 0 <= k < |s| ensures !IsBlank(s[k]) { LettersAreNotBlank(s[k]); }
    NothingBlank(s);
  }

  lemma PadIs(bytes: seq<byte>)
    ensures Pad(Encoded(bytes)) == PadOf(|bytes|)
  {
    if bytes == [] { EncodedNothing(); } else { EncodedShape(bytes); }
  }

  lemma SignsBehind(s: string)
    ensures forall k :: |s| - Pad(s) <= k < |s| ==> s[k] == '='
    ensures Pad(s) <= 2 && Pad(s) <= |s|
  {
  }
}
