// The scanner and the unquoter of the filter language (packages/trace/src/filter.ts).
module FilterScan {
  import opened Wrappers

  datatype Token = Token(text: string, at: nat)

  datatype Scanned = Scanned(tokens: seq<Token>, unclosedAt: Option<nat>)

  // What the pattern class for white space matches.
  predicate IsSpace(c: char) {
    || '\t' <= c <= '\r' || c == ' ' || c == '\U{00A0}' || c == '\U{1680}' || '\U{2000}' <= c <= '\U{200A}'
    || c == '\U{2028}' || c == '\U{2029}' || c == '\U{202F}' || c == '\U{205F}' || c == '\U{3000}' || c == '\U{FEFF}'
  }

  predicate EndsWithColon(s: string) { s != "" && s[|s| - 1] == ':' }

  // The scanner between two characters. `escaped`: the next one is taken as it is.
  datatype Scanner = Scanner(out: seq<Token>, cur: string, at: nat, quoteAt: Option<nat>, escaped: bool)

  const START := Scanner([], "", 0, None, false)

  function Feed(s: Scanner, c: char, i: nat): Scanner {
    if s.quoteAt.Some? then
      if s.escaped then s.(cur := s.cur + [c], escaped := false)
      else if c == '\\' then s.(cur := s.cur + [c], escaped := true)
      else if c == '\"' then s.(cur := s.cur + [c], quoteAt := None)
      else s.(cur := s.cur + [c])
    else if c == '\"' && EndsWithColon(s.cur) then s.(cur := s.cur + [c], quoteAt := Some(i))
    else if IsSpace(c) then s.(out := Closed(s), cur := "")
    else s.(cur := s.cur + [c], at := if s.cur == "" then i else s.at)
  }

  // The tokens once the one under way is closed.
  function Closed(s: Scanner): seq<Token> { if s.cur == "" then s.out else s.out + [Token(s.cur, s.at)] }

  function FeedAll(s: Scanner, text: string, i: nat): Scanner
    decreases |text|
  {
    if text == "" then s else FeedAll(Feed(s, text[0], i), text[1..], i + 1)
  }

  function ScanOf(text: string): Scanned {
    var s := FeedAll(START, text, 0);
    Scanned(Closed(s), s.quoteAt)
  }

  lemma FeedStep(s: Scanner, text: string, i: nat)
    requires i < |text|
    ensures FeedAll(s, text[i..], i) == FeedAll(Feed(s, text[i], i), text[i + 1..], i + 1)
  {
    assert text[i..][0] == text[i] && text[i..][1..] == text[i + 1..];
    hide Feed;
  }

  lemma FeedEnd(s: Scanner, text: string)
    ensures FeedAll(s, text[|text|..], |text|) == s
  {
  }

  method Scan(text: string) returns (r: Scanned)
    ensures r == ScanOf(text)
  {
    var out: seq<Token> := [];
    var cur, curAt := "", 0;
    var quoteAt: Option<nat> := None;
    var i := 0;
    assert text[0..] == text;
    hide FeedAll, IsSpace;
    while i < |text|
      invariant 0 <= i <= |text| + 1
      invariant i <= |text| ==> FeedAll(START, text, 0) == FeedAll(Scanner(out, cur, curAt, quoteAt, false), text[i..], i)
      invariant i == |text| + 1 ==> FeedAll(START, text, 0) == Scanner(out, cur, curAt, quoteAt, true)
    {
      var c := text[i];
      FeedStep(Scanner(out, cur, curAt, quoteAt, false), text, i);
      if quoteAt.Some? {
        cur := cur + [c];
        if c == '\\' {
          i := i + 1;
          if i == |text| { FeedEnd(Scanner(out, cur, curAt, quoteAt, true), text); }
          if i < |text| {
            FeedStep(Scanner(out, cur, curAt, quoteAt, true), text, i);
            cur := cur + [text[i]];
          }
        } else if c == '\"' {
          quoteAt := None;
        }
      } else if c == '\"' && EndsWithColon(cur) {
        quoteAt := Some(i);
        cur := cur + [c];
      } else if IsSpace(c) {
        if cur != "" { out := out + [Token(cur, curAt)]; }
        cur := "";
      } else {
        if cur == "" { curAt := i; }
        cur := cur + [c];
      }
      i := i + 1;
    }
    if i == |text| { FeedEnd(Scanner(out, cur, curAt, quoteAt, false), text); }
    if cur != "" { out := out + [Token(cur, curAt)]; }
    r := Scanned(out, quoteAt);
  }

  // ---- tokens are slices ---------------------------------------------------------------------------------------------------

  predicate IsSlice(text: string, t: Token) { t.text != "" && t.at + |t.text| <= |text| && text[t.at..t.at + |t.text|] == t.text }

  function End(t: Token): nat { t.at + |t.text| }

  ghost predicate AllSpace(text: string, lo: int, hi: int) {
    forall k :: 0 <= lo <= k < hi <= |text| ==> IsSpace(text[k])
  }

  // Where the text after the last closed token begins.
  function After(out: seq<Token>): nat { if out == [] then 0 else End(out[|out| - 1]) }

  // The tokens are slices of the text, in order, at least one space between two, and nothing but space between them.
  ghost predicate Tiles(text: string, out: seq<Token>) {
    && (forall k :: 0 <= k < |out| ==> IsSlice(text, out[k]))
    && (forall k :: 0 < k < |out| ==> End(out[k - 1]) < out[k].at)
    && (out != [] ==> AllSpace(text, 0, out[0].at))
    && (forall k :: 0 < k < |out| ==> AllSpace(text, End(out[k - 1]), out[k].at))
  }

  // The token under way is the end of the text, with space between it and the token before.
  ghost predicate CurInv(text: string, out: seq<Token>, cur: string, at: nat) {
    && After(out) <= |text|
    && if cur == "" then AllSpace(text, After(out), |text|) && (out != [] ==> After(out) < |text|)
       else
         && IsSlice(text, Token(cur, at)) && at + |cur| == |text|
         && AllSpace(text, After(out), at) && (out != [] ==> After(out) < at)
  }

  ghost predicate QuoteInv(text: string, cur: string, quoteAt: Option<nat>) {
    quoteAt.Some? ==> quoteAt.value < |text| && text[quoteAt.value] == '\"' && cur != ""
  }

  ghost predicate ScanInv(text: string, s: Scanner) {
    Tiles(text, s.out) && CurInv(text, s.out, s.cur, s.at) && QuoteInv(text, s.cur, s.quoteAt)
  }

  lemma SliceGrows(text: string, c: char, t: Token)
    requires IsSlice(text, t)
    ensures IsSlice(text + [c], t)
  {
    assert (text + [c])[t.at..End(t)] == text[t.at..End(t)];
  }

  lemma TilesGrow(text: string, c: char, out: seq<Token>)
    requires Tiles(text, out)
    ensures Tiles(text + [c], out)
  {
    hide IsSpace;
    forall k | 0 <= k < |out| ensures IsSlice(text + [c], out[k]) { SliceGrows(text, c, out[k]); }
    forall k | 0 < k < |out| ensures AllSpace(text + [c], End(out[k - 1]), out[k].at) {
      assert AllSpace(text, End(out[k - 1]), out[k].at);
      assert IsSlice(text, out[k]);
    }
    if out != [] { assert IsSlice(text, out[0]); }
  }

  lemma TilesClose(text: string, out: seq<Token>, cur: string, at: nat)
    requires Tiles(text, out) && CurInv(text, out, cur, at)
    ensures cur != "" ==> Tiles(text, out + [Token(cur, at)]) && After(out + [Token(cur, at)]) == |text|
  {
    hide IsSpace;
    if cur != "" {
      var t := Token(cur, at);
      var out' := out + [t];
      forall k | 0 <= k < |out'| ensures IsSlice(text, out'[k]) { if k < |out| { assert IsSlice(text, out[k]); } }
      forall k | 0 < k < |out'| ensures AllSpace(text, End(out'[k - 1]), out'[k].at) {
        if k < |out| { assert AllSpace(text, End(out[k - 1]), out[k].at); }
      }
    }
  }

  lemma CurAppend(text: string, out: seq<Token>, cur: string, at: nat, c: char)
    requires CurInv(text, out, cur, at)
    ensures CurInv(text + [c], out, cur + [c], if cur == "" then |text| else at)
  {
    hide IsSpace;
    var text' := text + [c];
    if cur != "" {
      assert text'[at..at + |cur + [c]|] == cur + [c];
    } else {
      assert text'[|text|..|text| + 1] == [c];
    }
  }

  predicate Closes(s: Scanner, c: char) { s.quoteAt == None && !(c == '\"' && EndsWithColon(s.cur)) && IsSpace(c) }

  lemma SpaceKeeps(text: string, s: Scanner, c: char)
    requires ScanInv(text, s) && Closes(s, c)
    ensures ScanInv(text + [c], Feed(s, c, |text|))
  {
    hide IsSpace, Tiles;
    TilesClose(text, s.out, s.cur, s.at);
    TilesGrow(text, c, Closed(s));
    SpaceAtEnd(text, c, After(s.out));
    SpaceAtEnd(text, c, |text|);
    hide IsSlice, AllSpace;
  }

  lemma SpaceAtEnd(text: string, c: char, lo: int)
    requires IsSpace(c)
    ensures AllSpace(text, lo, |text|) ==> AllSpace(text + [c], lo, |text| + 1)
  {
    hide IsSpace;
  }

  lemma CharKeeps(text: string, s: Scanner, c: char)
    requires ScanInv(text, s) && !Closes(s, c)
    ensures ScanInv(text + [c], Feed(s, c, |text|))
  {
    TilesGrow(text, c, s.out);
    CurAppend(text, s.out, s.cur, s.at, c);
    CurInQuote(text, s);
    hide Tiles, CurInv, IsSpace;
  }

  lemma CurInQuote(text: string, s: Scanner)
    requires ScanInv(text, s)
    ensures s.quoteAt.Some? ==> s.cur != ""
  {
  }

  lemma FeedKeeps(text: string, s: Scanner, c: char)
    requires ScanInv(text, s)
    ensures ScanInv(text + [c], Feed(s, c, |text|))
  {
    hide ScanInv, Feed, Closes;
    if Closes(s, c) { SpaceKeeps(text, s, c); } else { CharKeeps(text, s, c); }
  }

  lemma {:induction false} FeedAllKeeps(done: string, s: Scanner, rest: string)
    requires ScanInv(done, s)
    ensures ScanInv(done + rest, FeedAll(s, rest, |done|))
    decreases |rest|
  {
    hide ScanInv, Feed;
    if rest == "" {
      assert done + rest == done;
    } else {
      FeedKeeps(done, s, rest[0]);
      assert done + rest == (done + [rest[0]]) + rest[1..];
      FeedAllKeeps(done + [rest[0]], Feed(s, rest[0], |done|), rest[1..]);
    }
  }

  // Tokens are exact ordered slices with only white space between, before and after them; a quote left open is where it says.
  lemma TokensAreSlices(text: string)
    ensures var r := ScanOf(text);
      && Tiles(text, r.tokens)
      && AllSpace(text, After(r.tokens), |text|)
      && (r.unclosedAt.Some? ==> r.unclosedAt.value < |text| && text[r.unclosedAt.value] == '\"')
  {
    FeedAllKeeps("", START, text);
    assert "" + text == text;
    var s := FeedAll(START, text, 0);
    TilesClose(text, s.out, s.cur, s.at);
  }

  // ---- joining two texts -----------------------------------------------------------------------------------------------------

  function ShiftToken(t: Token, d: nat): Token { Token(t.text, t.at + d) }

  function ShiftTokens(ts: seq<Token>, d: nat): seq<Token> { seq(|ts|, k requires 0 <= k < |ts| => ShiftToken(ts[k], d)) }

  function ShiftAt(at: Option<nat>, d: nat): Option<nat> { if at.None? then None else Some(at.value + d) }

  // The same scanner `d` characters further on, with tokens closed before it.
  ghost predicate Alike(s: Scanner, s': Scanner, before: seq<Token>, d: nat) {
    && s'.out == before + ShiftTokens(s.out, d)
    && s'.cur == s.cur && s'.escaped == s.escaped
    && s'.quoteAt == ShiftAt(s.quoteAt, d)
    && (s.cur != "" ==> s'.at == s.at + d)
    && (s.quoteAt.Some? ==> s.cur != "")
  }

  lemma FeedAlike(s: Scanner, s': Scanner, before: seq<Token>, d: nat, c: char, i: nat)
    requires Alike(s, s', before, d)
    ensures Alike(Feed(s, c, i), Feed(s', c, i + d), before, d)
    ensures Closed(s') == before + ShiftTokens(Closed(s), d) && s'.quoteAt == ShiftAt(s.quoteAt, d)
  {
    hide IsSpace;
    var t := Token(s.cur, s.at);
    assert ShiftTokens(s.out + [t], d) == ShiftTokens(s.out, d) + [ShiftToken(t, d)];
    assert before + (ShiftTokens(s.out, d) + [ShiftToken(t, d)]) == before + ShiftTokens(s.out, d) + [ShiftToken(t, d)];
    hide ShiftTokens;
  }

  lemma {:induction false} FeedAllAlike(s: Scanner, s': Scanner, before: seq<Token>, d: nat, text: string, i: nat)
    requires Alike(s, s', before, d)
    ensures Alike(FeedAll(s, text, i), FeedAll(s', text, i + d), before, d)
    decreases |text|
  {
    hide Feed, Alike;
    if text != "" {
      FeedAlike(s, s', before, d, text[0], i);
      FeedAllAlike(Feed(s, text[0], i), Feed(s', text[0], i + d), before, d, text[1..], i + 1);
    }
  }

  lemma {:induction false} FeedAllConcat(s: Scanner, a: string, b: string, i: nat)
    ensures FeedAll(s, a + b, i) == FeedAll(FeedAll(s, a, i), b, i + |a|)
    decreases |a|
  {
    if a == "" { assert a + b == b; } else {
      assert (a + b)[1..] == a[1..] + b;
      hide Feed;
      FeedAllConcat(Feed(s, a[0], i), a[1..], b, i + 1);
    }
  }

  // Two texts joined by a space scan to the tokens of the first and then those of the second, moved; so does the place of a
  // quote the second leaves open.
  lemma ScanJoined(a: string, b: string)
    requires ScanOf(a).unclosedAt == None
    ensures var r, ra, rb, d := ScanOf(a + " " + b), ScanOf(a), ScanOf(b), |a| + 1;
      r.tokens == ra.tokens + ShiftTokens(rb.tokens, d) && r.unclosedAt == ShiftAt(rb.unclosedAt, d)
  {
    hide Feed, IsSpace, FeedAll, Alike, ShiftTokens, Closed;
    var sa, d := FeedAll(START, a, 0), |a| + 1;
    NoEscapeOutside("", START, a);
    SpaceCloses(sa, |a|);
    var s1 := Feed(sa, ' ', |a|);
    JoinedStates(a, b);
    StartAlike(s1, Closed(sa), d);
    FeedAllAlike(START, s1, Closed(sa), d, b, 0);
    FeedAlike(FeedAll(START, b, 0), FeedAll(s1, b, d), Closed(sa), d, ' ', 0);
  }

  lemma StartAlike(s1: Scanner, before: seq<Token>, d: nat)
    requires s1.out == before && s1.cur == "" && s1.quoteAt == None && !s1.escaped
    ensures Alike(START, s1, before, d)
  {
    assert before + ShiftTokens([], d) == before;
  }

  lemma JoinedStates(a: string, b: string)
    ensures FeedAll(START, a + " " + b, 0) == FeedAll(Feed(FeedAll(START, a, 0), ' ', |a|), b, |a| + 1)
  {
    hide Feed, FeedAll;
    var sa, sp := FeedAll(START, a, 0), [' '];
    assert a + " " + b == a + (sp + b);
    FeedAllConcat(START, a, sp + b, 0);
    FeedAllConcat(sa, sp, b, |a|);
    FeedOne(sa, ' ', |a|);
  }

  lemma SpaceCloses(s: Scanner, i: nat)
    requires s.quoteAt == None && !s.escaped
    ensures var s1 := Feed(s, ' ', i); s1.out == Closed(s) && s1.cur == "" && s1.quoteAt == None && !s1.escaped
  {
    assert IsSpace(' ');
  }

  lemma {:induction false} NoEscapeOutside(done: string, s: Scanner, rest: string)
    requires s.quoteAt == None ==> !s.escaped
    ensures var r := FeedAll(s, rest, |done|); r.quoteAt == None ==> !r.escaped
    decreases |rest|
  {
    hide IsSpace;
    if rest != "" {
      NoEscapeOutside(done + [rest[0]], Feed(s, rest[0], |done|), rest[1..]);
    }
  }

  // ---- quoted text -----------------------------------------------------------------------------------------------------------

  datatype QuoteError = NotClosed | BackslashEnds | UnescapedQuote

  function Prefixed(head: string, r: Result<string, QuoteError>): Result<string, QuoteError> {
    match r case Ok(s) => Ok(head + s) case Err(e) => Err(e)
  }

  // The body of a quoted text read: backslashes taken off.
  function Body(b: string): Result<string, QuoteError>
    decreases |b|
  {
    if b == "" then Ok("")
    else if b[0] == '\\' then if |b| < 2 then Err(BackslashEnds) else Prefixed([b[1]], Body(b[2..]))
    else if b[0] == '\"' then Err(UnescapedQuote)
    else Prefixed([b[0]], Body(b[1..]))
  }

  lemma PrefixedTwice(a: string, b: string, r: Result<string, QuoteError>)
    ensures Prefixed(a, Prefixed(b, r)) == Prefixed(a + b, r)
    ensures Prefixed("", r) == r
  {
    if r.Ok? {
      assert a + (b + r.value) == (a + b) + r.value;
      assert "" + r.value == r.value;
    }
  }

  function UnquoteOf(value: string): Result<string, QuoteError> {
    if value == "" || value[0] != '\"' then Ok(value)
    else if |value| < 2 || value[|value| - 1] != '\"' then Err(NotClosed)
    else Body(value[1..|value| - 1])
  }

  method Unquote(value: string) returns (r: Result<string, QuoteError>)
    ensures r == UnquoteOf(value)
  {
    if value == "" || value[0] != '\"' { return Ok(value); }
    if |value| < 2 || value[|value| - 1] != '\"' { return Err(NotClosed); }
    var out := "";
    var body := value[1..|value| - 1];
    assert body[0..] == body;
    PrefixedTwice("", "", Body(body));
    var i := 0;
    while i < |body|
      invariant 0 <= i <= |body|
      invariant Body(body) == Prefixed(out, Body(body[i..]))
    {
      hide Prefixed;
      var c := body[i];
      var rest := body[i..];
      assert rest[0] == c && rest[1..] == body[i + 1..];
      if c == '\\' {
        i := i + 1;
        if i >= |body| {
          PrefixedError(out, BackslashEnds);
          return Err(BackslashEnds);
        }
        assert rest[2..] == body[i + 1..] && rest[1] == body[i];
        PrefixedTwice(out, [body[i]], Body(body[i + 1..]));
        out := out + [body[i]];
      } else if c == '\"' {
        PrefixedError(out, UnescapedQuote);
        return Err(UnescapedQuote);
      } else {
        PrefixedTwice(out, [c], Body(body[i + 1..]));
        out := out + [c];
      }
      i := i + 1;
    }
    assert out + "" == out;
    return Ok(out);
  }

  lemma PrefixedError(head: string, e: QuoteError)
    ensures Prefixed(head, Err(e)) == Err(e)
  {
  }

  // How a text is written to be taken as it is: quotes and backslashes escaped, in quotes.
  function EscapeOne(c: char): string { if c == '\\' || c == '\"' then ['\\', c] else [c] }

  function Escape(s: string): string { if s == "" then "" else EscapeOne(s[0]) + Escape(s[1..]) }

  function Quote(s: string): string { ['\"'] + Escape(s) + ['\"'] }

  lemma {:induction false} BodyOfEscape(s: string)
    ensures Body(Escape(s)) == Ok(s)
  {
    if s != "" {
      BodyOfEscape(s[1..]);
      var e := Escape(s);
      if s[0] == '\\' || s[0] == '\"' {
        assert e[2..] == Escape(s[1..]) && e[0] == '\\' && e[1] == s[0];
      } else {
        assert e[1..] == Escape(s[1..]) && e[0] == s[0];
      }
      assert s == [s[0]] + s[1..];
    }
  }

  lemma QuoteRoundTrip(s: string)
    ensures UnquoteOf(Quote(s)) == Ok(s)
  {
    var q := Quote(s);
    assert q[1..|q| - 1] == Escape(s);
    BodyOfEscape(s);
  }

  lemma FeedOne(st: Scanner, c: char, i: nat)
    ensures FeedAll(st, [c], i) == Feed(st, c, i)
  {
    assert [c][1..] == "";
  }

  lemma FeedOneEscaped(st: Scanner, c: char, i: nat)
    requires st.quoteAt.Some? && !st.escaped
    ensures FeedAll(st, EscapeOne(c), i) == st.(cur := st.cur + EscapeOne(c))
  {
    if c == '\\' || c == '\"' {
      assert EscapeOne(c) == ['\\'] + [c];
      FeedAllConcat(st, ['\\'], [c], i);
      FeedOne(st, '\\', i);
      FeedOne(Feed(st, '\\', i), c, i + 1);
      assert st.cur + ['\\'] + [c] == st.cur + EscapeOne(c);
    } else {
      FeedOne(st, c, i);
    }
  }

  // Inside a quote an escaped text is one stretch: nothing in it ends the quote or the token.
  lemma {:induction false} FeedEscaped(st: Scanner, s: string, i: nat)
    requires st.quoteAt.Some? && !st.escaped
    ensures FeedAll(st, Escape(s), i) == st.(cur := st.cur + Escape(s))
    decreases |s|
  {
    if s == "" {
      assert st.cur + "" == st.cur;
    } else {
      hide Feed, FeedAll, EscapeOne;
      var one := EscapeOne(s[0]);
      FeedOneEscaped(st, s[0], i);
      FeedAllConcat(st, one, Escape(s[1..]), i);
      FeedEscaped(st.(cur := st.cur + one), s[1..], i + |one|);
      assert Escape(s) == one + Escape(s[1..]);
      hide Escape;
      assert st.cur + one + Escape(s[1..]) == st.cur + (one + Escape(s[1..]));
    }
  }

  // A quoted text after a colon: the scanner is back outside the quote, with the whole of it in the token.
  lemma FeedQuoted(st: Scanner, s: string, i: nat)
    requires st.quoteAt == None && !st.escaped && EndsWithColon(st.cur)
    ensures FeedAll(st, Quote(s), i) == st.(cur := st.cur + Quote(s))
  {
    hide Feed, FeedAll, Escape, EndsWithColon;
    var q, e := ['\"'], Escape(s);
    OpenQuote(st, i);
    var s1 := st.(cur := st.cur + q, quoteAt := Some(i));
    FeedEscaped(s1, s, i + 1);
    var s2 := s1.(cur := s1.cur + e);
    CloseQuote(s2, i + 1 + |e|);
    FeedAllConcat(st, q, e + q, i);
    FeedAllConcat(s1, e, q, i + 1);
    assert Quote(s) == q + (e + q);
    assert st.cur + q + e + q == st.cur + (q + (e + q));
  }

  lemma OpenQuote(st: Scanner, i: nat)
    requires st.quoteAt == None && !st.escaped && EndsWithColon(st.cur)
    ensures FeedAll(st, ['\"'], i) == st.(cur := st.cur + ['\"'], quoteAt := Some(i))
  {
    FeedOne(st, '\"', i);
  }

  lemma CloseQuote(st: Scanner, i: nat)
    requires st.quoteAt.Some? && !st.escaped
    ensures FeedAll(st, ['\"'], i) == st.(cur := st.cur + ['\"'], quoteAt := None)
  {
    FeedOne(st, '\"', i);
  }

  // A key with a quoted text is one token, whatever the text.
  lemma QuotedIsOneToken(key: string, s: string)
    requires key != "" && forall k :: 0 <= k < |key| ==> !IsSpace(key[k]) && key[k] != '\"'
    ensures ScanOf(key + ":" + Quote(s)) == Scanned([Token(key + ":" + Quote(s), 0)], None)
  {
    assert !IsSpace(':');
    hide Feed, Escape, IsSpace, Quote;
    var head := key + [':'];
    assert head + Quote(s) == key + ":" + Quote(s);
    assert START.cur + head == head;
    FeedWord(START, head);
    FeedAllConcat(START, head, Quote(s), 0);
    FeedQuoted(START.(cur := head), s, |head|);
    hide FeedAll;
  }

  lemma {:induction false} FeedWord(st: Scanner, w: string)
    requires st.quoteAt == None && !st.escaped && st.at == 0
    requires forall k :: 0 <= k < |w| ==> !IsSpace(w[k]) && w[k] != '\"'
    ensures FeedAll(st, w, |st.cur|) == st.(cur := st.cur + w)
    decreases |w|
  {
    hide IsSpace;
    assert "" + w == w;
    if w == "" {
      assert st.cur + "" == st.cur;
    } else {
      FeedWord(st.(cur := st.cur + [w[0]]), w[1..]);
      assert st.cur + [w[0]] + w[1..] == st.cur + w;
    }
  }
}
