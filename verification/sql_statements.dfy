// Splitting the text of the SQL console into statements (packages/storage/src/sql-console.ts).
module SqlStatements {
  import opened FilterScan

  // ---- the text as lexemes -------------------------------------------------------------------------------------------------------

  datatype Kind = LineComment | BlockComment | Quoted | Semicolon | Plain

  datatype Lexeme = Lexeme(kind: Kind, text: string)

  predicate Starts(s: string, pair: string)
    requires |pair| == 2
  {
    |s| >= 2 && s[0] == pair[0] && s[1] == pair[1]
  }

  predicate Opens(c: char) { c == '\'' || c == '\"' || c == '`' || c == '[' }

  function Closer(open: char): char { if open == '[' then ']' else open }

  // How long the line is, up to its end without it.
  function LineLength(s: string): (n: nat)
    ensures n <= |s| && (n < |s| ==> s[n] == '\n') && forall k :: 0 <= k < n ==> s[k] != '\n'
  {
    if s == "" || s[0] == '\n' then 0 else 1 + LineLength(s[1..])
  }

  // An end of a block comment stands here.
  predicate EndAt(s: string, k: int) { 0 <= k < |s| - 1 && s[k] == '*' && s[k + 1] == '/' }

  // How far the first end of a block comment reaches; all of the text when there is none.
  function BlockLength(s: string): (n: nat)
    ensures n <= |s|
    ensures n == |s| || (n >= 2 && EndAt(s, n - 2))
    ensures forall k :: 0 <= k < n - 2 ==> !EndAt(s, k)
  {
    if s == "" then 0 else if EndAt(s, 0) then 2 else
      var n := 1 + BlockLength(s[1..]);
      assert forall k :: 1 <= k < |s| ==> EndAt(s, k) == EndAt(s[1..], k - 1);
      n
  }

  // How far a quote reaches, from behind its opening: a doubled closer is part of it, but for a bracket.
  function QuoteLength(s: string, close: char): (n: nat)
    ensures n <= |s| && (s != "" ==> n > 0)
  {
    if s == "" then 0
    else if s[0] != close then 1 + QuoteLength(s[1..], close)
    else if close != ']' && |s| >= 2 && s[1] == close then 2 + QuoteLength(s[2..], close)
    else 1
  }

  function First(s: string): (l: Lexeme)
    requires s != ""
    ensures 0 < |l.text| <= |s| && l.text == s[..|l.text|]
  {
    if Starts(s, "--") then Lexeme(LineComment, s[..LineLength(s)])
    else if Starts(s, "/*") then Lexeme(BlockComment, s[..2 + BlockLength(s[2..])])
    else if Opens(s[0]) then Lexeme(Quoted, s[..1 + QuoteLength(s[1..], Closer(s[0]))])
    else Lexeme(if s[0] == ';' then Semicolon else Plain, s[..1])
  }

  function Lexemes(s: string): seq<Lexeme> {
    if s == "" then [] else [First(s)] + Lexemes(s[|First(s).text|..])
  }

  function Texts(ls: seq<Lexeme>): string { if ls == [] then "" else ls[0].text + Texts(ls[1..]) }

  // The inside of a quote: no closer that is not doubled.
  predicate Body(s: string, close: char) {
    s == "" || (s[0] != close && Body(s[1..], close))
    || (close != ']' && |s| >= 2 && s[0] == s[1] == close && Body(s[2..], close))
  }

  ghost predicate WholeQuote(s: string) {
    && s != "" && Opens(s[0]) && |s| > 1 && s[|s| - 1] == Closer(s[0]) && Body(s[1..|s| - 1], Closer(s[0]))
  }

  lemma {:induction false} QuoteEnds(s: string, close: char)
    requires s != ""
    ensures var n := QuoteLength(s, close);
      || (s[n - 1] == close && Body(s[..n - 1], close) && (close == ']' || n == |s| || s[n] != close))
      || (n == |s| && Body(s, close))
  {
    var n := QuoteLength(s, close);
    if s[0] != close {
      if |s| > 1 {
        QuoteEnds(s[1..], close);
        assert n > 1 && s[1..][..n - 2] == s[..n - 1][1..];
      }
    } else if close != ']' && |s| >= 2 && s[1] == close {
      if |s| > 2 {
        QuoteEnds(s[2..], close);
        assert n > 2 && s[2..][..n - 3] == s[..n - 1][2..];
      }
    } else {
      assert s[..0] == "";
    }
  }

  // What the lexemes are: they cover the text without a gap; a line comment runs to the end of its line, a block comment to its
  // first end, a quote to its first closer that is not doubled; everything else is one character.
  ghost predicate Meant(l: Lexeme, rest: string) {
    match l.kind
    case LineComment => Starts(l.text, "--") && '\n' !in l.text && (rest == "" || rest[0] == '\n')
    case BlockComment =>
      && Starts(l.text, "/*") && (rest == "" || (|l.text| >= 4 && EndAt(l.text, |l.text| - 2)))
      && (forall k :: 2 <= k < |l.text| - 2 ==> !EndAt(l.text, k))
    case Quoted =>
      && l.text != "" && Opens(l.text[0])
      && ((WholeQuote(l.text) && (l.text[0] == '[' || rest == "" || rest[0] != Closer(l.text[0])))
          || (rest == "" && Body(l.text[1..], Closer(l.text[0]))))
    case Semicolon => l.text == ";"
    case Plain => |l.text| == 1 && !Opens(l.text[0]) && l.text != ";" && !Starts(l.text + rest, "--") && !Starts(l.text + rest, "/*")
  }

  lemma BlockIsFirst(s: string)
    requires |s| >= 2
    ensures var n := 2 + BlockLength(s[2..]);
      && (forall k :: 2 <= k < n - 2 ==> !EndAt(s[..n], k))
      && (n == |s| || (n >= 4 && EndAt(s[..n], n - 2)))
  {
    var t := s[2..];
    var n := 2 + BlockLength(t);
    forall k | 2 <= k < n - 2 ensures !EndAt(s[..n], k) {
      assert !EndAt(t, k - 2);
    }
  }

  lemma FirstMeans(s: string)
    requires s != ""
    ensures Meant(First(s), s[|First(s).text|..])
  {
    hide LineLength, BlockLength, QuoteLength, Body;
    var l := First(s);
    assert l.text + s[|l.text|..] == s;
    if l.kind == BlockComment {
      BlockIsFirst(s);
      assert l.text == s[..2 + BlockLength(s[2..])];
    }
    if l.kind == Quoted { QuotedMeans(s); }
  }

  lemma QuotedMeans(s: string)
    requires s != "" && First(s).kind == Quoted
    ensures Meant(First(s), s[|First(s).text|..])
  {
    hide LineLength, BlockLength;
    var l := First(s);
    if |s| > 1 {
      QuoteEnds(s[1..], Closer(s[0]));
      hide QuoteLength;
      var n := |l.text|;
      assert l.text[1..n - 1] == s[1..][..n - 2];
      assert n == |s| ==> l.text[1..] == s[1..];
    }
  }

  lemma {:induction false} LexemesCover(s: string)
    ensures Texts(Lexemes(s)) == s
    ensures forall k :: 0 <= k < |Lexemes(s)| ==> Meant(Lexemes(s)[k], Texts(Lexemes(s)[k + 1..]))
  {
    hide Meant, First, Lexemes;
    if s != "" {
      var rest := s[|First(s).text|..];
      LexemesStart(s);
      LexemesCover(rest);
      FirstMeans(s);
      hide Texts;
      CoverMore(First(s), Lexemes(rest), rest);
    } else {
      NoLexemes();
    }
  }

  lemma LexemesStart(s: string)
    requires s != ""
    ensures 0 < |First(s).text| <= |s| && First(s).text + s[|First(s).text|..] == s
    ensures Lexemes(s) == [First(s)] + Lexemes(s[|First(s).text|..])
  {
    assert Lexemes(s) == [First(s)] + Lexemes(s[|First(s).text|..]);
    hide First, Lexemes;
    assert First(s).text == s[..|First(s).text|];
  }

  lemma NoLexemes()
    ensures Lexemes("") == [] && Texts([]) == ""
  {
  }

  lemma CoverMore(l: Lexeme, ls: seq<Lexeme>, rest: string)
    requires Texts(ls) == rest && Meant(l, rest)
    requires forall k :: 0 <= k < |ls| ==> Meant(ls[k], Texts(ls[k + 1..]))
    ensures Texts([l] + ls) == l.text + rest
    ensures forall k :: 0 <= k < |[l] + ls| ==> Meant(([l] + ls)[k], Texts(([l] + ls)[k + 1..]))
  {
    var all := [l] + ls;
    assert all[1..] == ls;
    hide Meant, Texts;
    forall k | 0 <= k < |all| ensures Meant(all[k], Texts(all[k + 1..])) {
      if k > 0 { assert all[k + 1..] == ls[k..] && all[k] == ls[k - 1] && ls[k - 1 + 1..] == ls[k..]; }
    }
  }

  // ---- the statements ------------------------------------------------------------------------------------------------------------------

  // What is kept of a lexeme: a line comment goes, a block comment leaves a space.
  function Shown(l: Lexeme): string {
    if l.kind == LineComment then "" else if l.kind == BlockComment then " " else l.text
  }

  function ShownAll(ls: seq<Lexeme>): string { if ls == [] then "" else Shown(ls[0]) + ShownAll(ls[1..]) }

  // The lexemes before the first semicolon.
  function Piece(ls: seq<Lexeme>): (p: seq<Lexeme>)
    ensures p <= ls && (|p| < |ls| ==> ls[|p|].kind == Semicolon)
    ensures forall k :: 0 <= k < |p| ==> p[k].kind != Semicolon
  {
    if ls == [] || ls[0].kind == Semicolon then [] else [ls[0]] + Piece(ls[1..])
  }

  function TrimStart(s: string): string { if s != "" && IsSpace(s[0]) then TrimStart(s[1..]) else s }

  function TrimEnd(s: string): string { if s != "" && IsSpace(s[|s| - 1]) then TrimEnd(s[..|s| - 1]) else s }

  function Trim(s: string): string { TrimEnd(TrimStart(s)) }

  function Kept(s: string): seq<string> { if Trim(s) == "" then [] else [Trim(s)] }

  function Statements(ls: seq<Lexeme>): seq<string> {
    var p := Piece(ls);
    Kept(ShownAll(p)) + if |p| < |ls| then Statements(ls[|p| + 1..]) else []
  }

  function StatementsOf(sql: string): seq<string> { Statements(Lexemes(sql)) }

  // ---- the splitter ------------------------------------------------------------------------------------------------------------------------

  // The rest of the statements, with what is already gathered of the one under way.
  function Going(cur: string, ls: seq<Lexeme>): seq<string> {
    var p := Piece(ls);
    Kept(cur + ShownAll(p)) + if |p| < |ls| then Statements(ls[|p| + 1..]) else []
  }

  lemma GoingStep(cur: string, s: string)
    requires s != ""
    ensures First(s).kind != Semicolon ==>
      Going(cur, Lexemes(s)) == Going(cur + Shown(First(s)), Lexemes(s[|First(s).text|..]))
    ensures First(s).kind == Semicolon ==> Going(cur, Lexemes(s)) == Kept(cur) + Going("", Lexemes(s[|First(s).text|..]))
  {
    hide First, Kept, Shown, Going;
    assert Lexemes(s)[1..] == Lexemes(s[|First(s).text|..]) && Lexemes(s)[0] == First(s);
    hide Lexemes;
    GoingOn(cur, Lexemes(s));
  }

  lemma GoingOn(cur: string, ls: seq<Lexeme>)
    requires ls != []
    ensures Going(cur, ls) == if ls[0].kind != Semicolon then Going(cur + Shown(ls[0]), ls[1..]) else Kept(cur) + Going("", ls[1..])
  {
    hide Kept, Shown;
    if ls[0].kind != Semicolon {
      assert Piece(ls) == [ls[0]] + Piece(ls[1..]);
      assert Piece(ls)[1..] == Piece(ls[1..]);
      assert cur + (Shown(ls[0]) + ShownAll(Piece(ls[1..]))) == cur + Shown(ls[0]) + ShownAll(Piece(ls[1..]));
      assert |Piece(ls)| < |ls| ==> ls[|Piece(ls)| + 1..] == ls[1..][|Piece(ls[1..])| + 1..];
    } else {
      assert Piece(ls) == [];
      assert cur + "" == cur;
      var rest := ls[1..];
      assert "" + ShownAll(Piece(rest)) == ShownAll(Piece(rest));
    }
  }

  lemma GoingEnds(cur: string)
    ensures Going(cur, Lexemes("")) == Kept(cur)
  {
    assert cur + "" == cur;
    hide Kept;
  }

  // The lexeme at `i`, step by step as the loop finds it.
  method SplitStatements(sql: string) returns (out: seq<string>)
    ensures out == StatementsOf(sql)
  {
    hide First, Kept, Going, Lexemes;
    out := [];
    var cur, i := "", 0;
    StartGoing(sql);
    while i < |sql|
      invariant i <= |sql|
      invariant out + Going(cur, Lexemes(sql[i..])) == StatementsOf(sql)
    {
      GoingStep(cur, sql[i..]);
      ghost var l := First(sql[i..]);
      var kind, end, shown := Read(sql, i);
      assert sql[i..][|l.text|..] == sql[end..];
      if kind == Semicolon {
        if Trim(cur) != "" { out := out + [Trim(cur)]; }
        KeptIs(cur);
        cur := "";
      } else {
        cur := cur + shown;
      }
      i := end;
    }
    assert sql[i..] == "";
    GoingEnds(cur);
    KeptIs(cur);
    if Trim(cur) != "" { out := out + [Trim(cur)]; }
  }

  lemma KeptIs(s: string)
    ensures Kept(s) == if Trim(s) != "" then [Trim(s)] else []
  {
  }

  lemma StartGoing(sql: string)
    ensures [] + Going("", Lexemes(sql[0..])) == StatementsOf(sql)
  {
    hide Lexemes, Kept, Piece, ShownAll;
    assert sql[0..] == sql;
    assert "" + ShownAll(Piece(Lexemes(sql))) == ShownAll(Piece(Lexemes(sql)));
  }

  // Reads one lexeme from `i`: what it is, where it ends and what is kept of it.
  method Read(sql: string, i: nat) returns (kind: Kind, end: nat, shown: string)
    requires i < |sql|
    ensures var l := First(sql[i..]); kind == l.kind && end == i + |l.text| <= |sql| && shown == Shown(l)
  {
    hide LineLength, BlockLength, QuoteLength;
    var c := sql[i];
    if i + 1 < |sql| && c == '-' && sql[i + 1] == '-' {
      end := SkipLine(sql, i);
      return LineComment, end, "";
    }
    if i + 1 < |sql| && c == '/' && sql[i + 1] == '*' {
      end := SkipBlock(sql, i + 2);
      assert sql[i..][2..] == sql[i + 2..];
      return BlockComment, end, " ";
    }
    if Opens(c) {
      end := ReadQuote(sql, i + 1, Closer(c));
      assert sql[i..][1..] == sql[i + 1..];
      assert sql[i..][..end - i] == sql[i..end];
      return Quoted, end, sql[i..end];
    }
    return (if c == ';' then Semicolon else Plain), i + 1, [c];
  }

  method SkipLine(sql: string, from: nat) returns (end: nat)
    requires from <= |sql|
    ensures end == from + LineLength(sql[from..])
  {
    end := from;
    while end < |sql| && sql[end] != '\n'
      invariant from <= end <= |sql|
      invariant end - from + LineLength(sql[end..]) == LineLength(sql[from..])
    {
      end := end + 1;
    }
  }

  // The index of the next end of a block comment, and past it.
  method SkipBlock(sql: string, from: nat) returns (end: nat)
    requires from <= |sql|
    ensures end == from + BlockLength(sql[from..])
  {
    end := from;
    while end < |sql| && !(end + 1 < |sql| && sql[end] == '*' && sql[end + 1] == '/')
      invariant from <= end <= |sql|
      invariant end - from + BlockLength(sql[end..]) == BlockLength(sql[from..])
    {
      assert sql[end..][1..] == sql[end + 1..];
      end := end + 1;
    }
    end := if end < |sql| then end + 2 else |sql|;
  }

  method ReadQuote(sql: string, from: nat, close: char) returns (end: nat)
    requires from <= |sql|
    ensures end == from + QuoteLength(sql[from..], close)
  {
    end := from;
    while end < |sql|
      invariant from <= end <= |sql|
      invariant end - from + QuoteLength(sql[end..], close) == QuoteLength(sql[from..], close)
    {
      if sql[end] == close {
        if close != ']' && end + 1 < |sql| && sql[end + 1] == close {
          end := end + 2;
        } else {
          end := end + 1;
          return;
        }
      } else {
        end := end + 1;
      }
    }
  }

  // ---- it splits at the semicolons, and at nothing else --------------------------------------------------------------------------------------

  function Pieces(ls: seq<Lexeme>): seq<seq<Lexeme>> {
    var p := Piece(ls);
    [p] + if |p| < |ls| then Pieces(ls[|p| + 1..]) else []
  }

  function WithSemicolons(ps: seq<seq<Lexeme>>): seq<Lexeme>
    requires ps != []
  {
    if |ps| == 1 then ps[0] else ps[0] + [Lexeme(Semicolon, ";")] + WithSemicolons(ps[1..])
  }

  function KeptAll(ps: seq<seq<Lexeme>>): seq<string> {
    if ps == [] then [] else Kept(ShownAll(ps[0])) + KeptAll(ps[1..])
  }

  ghost predicate Unsplit(ps: seq<seq<Lexeme>>) { forall p, l :: p in ps && l in p ==> l.kind != Semicolon }

  ghost predicate ProperSemicolons(ls: seq<Lexeme>) {
    forall k :: 0 <= k < |ls| && ls[k].kind == Semicolon ==> ls[k] == Lexeme(Semicolon, ";")
  }

  // The statements of a text are what is between the semicolons that stand outside its quotes and comments, each without its
  // comments and trimmed, the blank ones left out.
  lemma SplitsAtSemicolons(sql: string)
    ensures StatementsOf(sql) == KeptAll(Pieces(Lexemes(sql)))
    ensures WithSemicolons(Pieces(Lexemes(sql))) == Lexemes(sql) && Unsplit(Pieces(Lexemes(sql)))
  {
    SemicolonsAreSemicolons(sql);
    PiecesKept(Lexemes(sql));
    PiecesJoin(Lexemes(sql));
    PiecesUnsplit(Lexemes(sql));
  }

  lemma {:induction false} PiecesKept(ls: seq<Lexeme>)
    ensures Statements(ls) == KeptAll(Pieces(ls))
  {
    hide Kept, ShownAll;
    var p := Piece(ls);
    if |p| < |ls| {
      PiecesKept(ls[|p| + 1..]);
      assert Pieces(ls)[1..] == Pieces(ls[|p| + 1..]);
    } else {
      assert Pieces(ls)[1..] == [];
    }
  }

  lemma {:induction false} PiecesJoin(ls: seq<Lexeme>)
    requires ProperSemicolons(ls)
    ensures WithSemicolons(Pieces(ls)) == ls
  {
    var p := Piece(ls);
    if |p| < |ls| {
      var rest := ls[|p| + 1..];
      assert ProperSemicolons(rest);
      assert ls[|p|] == Lexeme(Semicolon, ";");
      assert ls == p + [Lexeme(Semicolon, ";")] + rest;
      hide ProperSemicolons, Piece;
      PiecesJoin(rest);
      hide WithSemicolons;
      assert Pieces(ls) == [p] + Pieces(rest);
      JoinedStep(p, Pieces(rest));
    } else {
      assert p == ls;
    }
  }

  lemma JoinedStep(p: seq<Lexeme>, ps: seq<seq<Lexeme>>)
    requires ps != []
    ensures WithSemicolons([p] + ps) == p + [Lexeme(Semicolon, ";")] + WithSemicolons(ps)
  {
    assert ([p] + ps)[1..] == ps;
  }

  lemma {:induction false} PiecesUnsplit(ls: seq<Lexeme>)
    ensures Unsplit(Pieces(ls))
  {
    var p := Piece(ls);
    assert forall l :: l in p ==> l.kind != Semicolon;
    if |p| < |ls| {
      PiecesUnsplit(ls[|p| + 1..]);
      hide Piece;
    }
  }

  lemma {:induction false} SemicolonsAreSemicolons(s: string)
    ensures ProperSemicolons(Lexemes(s))
  {
    if s != "" { SemicolonsAreSemicolons(s[|First(s).text|..]); }
  }

  // ---- it is stable --------------------------------------------------------------------------------------------------------------------------

  // Nothing in it is a comment or splits it.
  ghost predicate Quiet(s: string) { forall l :: l in Lexemes(s) ==> l.kind == Quoted || l.kind == Plain }

  lemma QuietStep(s: string)
    requires s != ""
    ensures Quiet(s) <==> (First(s).kind == Quoted || First(s).kind == Plain) && Quiet(s[|First(s).text|..])
  {
    hide First;
    assert Lexemes(s)[0] == First(s);
    assert forall l :: l in Lexemes(s) <==> l == First(s) || l in Lexemes(s[|First(s).text|..]);
  }

  // What is kept of a text up to its first semicolon.
  function Out(s: string): string { ShownAll(Piece(Lexemes(s))) }

  lemma OutStep(s: string)
    requires s != ""
    ensures Out(s) == if First(s).kind == Semicolon then "" else Shown(First(s)) + Out(s[|First(s).text|..])
  {
    hide First, Shown;
    var ls := Lexemes(s);
    assert ls[1..] == Lexemes(s[|First(s).text|..]);
    if First(s).kind != Semicolon { assert Piece(ls)[1..] == Piece(ls[1..]); }
  }

  lemma Spaces(c: char)
    ensures IsSpace('\n') && IsSpace(' ')
    ensures IsSpace(c) ==> !Opens(c) && c != '-' && c != '/' && c != '*' && c != ';'
  {
  }

  // Behind a line comment stands the end of its line.
  lemma OutBehindComment(s: string)
    requires s != "" && First(s).kind == LineComment
    ensures var u := Out(s[|First(s).text|..]); u == "" || u[0] == '\n'
  {
    var rest := s[|First(s).text|..];
    if rest != "" {
      assert First(rest) == Lexeme(Plain, rest[..1]);
      OutStep(rest);
      hide Out;
    }
  }

  // What is kept begins with what the text began with, or with white space.
  lemma OutHead(s: string)
    ensures Out(s) == "" || (s != "" && (Out(s)[0] == s[0] || IsSpace(Out(s)[0])))
  {
    if s != "" {
      Spaces('a');
      OutStep(s);
      if First(s).kind == LineComment { OutBehindComment(s); }
      hide IsSpace, Out, First;
    }
  }

  // A quote `q` is read the same before any text that does not go on with its closer.
  lemma {:induction false} QuoteReread(q: string, v: string, u: string, close: char)
    requires QuoteLength(q + v, close) == |q|
    requires u == "" || (v != "" && (close == ']' || u[0] != close))
    ensures QuoteLength(q + u, close) == |q|
  {
    if q == "" { return; }
    var x, y := q + v, q + u;
    assert x[0] == q[0] == y[0];
    if q[0] != close {
      assert x[1..] == q[1..] + v && y[1..] == q[1..] + u;
      QuoteReread(q[1..], v, u, close);
    } else if |q| == 1 {
      assert u != "" ==> y[1] == u[0];
    } else {
      assert x[1] == q[1] == y[1] && q[1] == close != ']';
      assert x[2..] == q[2..] + v && y[2..] == q[2..] + u;
      QuoteReread(q[2..], v, u, close);
    }
  }

  // A quote that is not closed is not closed without its last character, when that is no closer.
  lemma {:induction false} QuoteShorter(s: string, close: char)
    requires s != "" && QuoteLength(s, close) == |s| && s[|s| - 1] != close
    ensures QuoteLength(s[..|s| - 1], close) == |s| - 1
  {
    var t := s[..|s| - 1];
    if |s| == 1 {
    } else if s[0] != close {
      QuoteShorter(s[1..], close);
      assert t[1..] == s[1..][..|s| - 2];
    } else {
      QuoteShorter(s[2..], close);
      assert t[2..] == s[2..][..|s| - 3];
    }
  }

  // A quote before what is kept of the text behind it is the same quote.
  lemma QuotedAgain(s: string, u: string)
    requires s != "" && First(s).kind == Quoted
    requires var n := |First(s).text|; u == "" || (n < |s| && (u[0] == s[n] || IsSpace(u[0])))
    ensures First(First(s).text + u) == First(s)
  {
    if u != "" { Spaces(u[0]); }
    hide IsSpace, Body, LineLength, BlockLength;
    var l := First(s);
    var n, close := |l.text|, Closer(s[0]);
    FirstMeans(s);
    assert u != "" && s[0] != '[' ==> u[0] != close;
    hide Meant;
    assert s[1..] == l.text[1..] + s[n..];
    QuoteReread(l.text[1..], s[n..], u, close);
    hide QuoteLength;
    assert (l.text + u)[1..] == l.text[1..] + u;
    assert (l.text + u)[..n] == l.text;
  }

  lemma PlainAgain(s: string, u: string)
    requires s != "" && First(s).kind == Plain
    requires u == "" || IsSpace(u[0]) || (|s| > 1 && u[0] == s[1])
    ensures First(First(s).text + u) == First(s)
  {
    if u != "" { Spaces(u[0]); }
    hide IsSpace, LineLength, BlockLength, QuoteLength;
    FirstMeans(s);
    assert First(s).text + s[1..] == s;
    assert (First(s).text + u)[..1] == First(s).text;
  }

  lemma SpaceFirst(u: string)
    ensures First(" " + u) == Lexeme(Plain, " ")
  {
  }

  lemma {:induction false} OutIsQuiet(s: string)
    ensures Quiet(Out(s))
  {
    if s == "" { return; }
    OutStep(s);
    var l := First(s);
    var rest := s[|l.text|..];
    var u := Out(rest);
    if l.kind == Semicolon { return; }
    OutIsQuiet(rest);
    OutHead(rest);
    if l.kind == BlockComment {
      SpaceFirst(u);
      QuietStep(" " + u);
      assert (" " + u)[1..] == u;
    } else if l.kind == LineComment {
      assert "" + u == u;
    } else {
      if l.kind == Quoted { QuotedAgain(s, u); } else { PlainAgain(s, u); }
      QuietStep(l.text + u);
      assert (l.text + u)[|l.text|..] == u;
    }
  }

  lemma {:induction false} QuietTrimStart(s: string)
    requires Quiet(s)
    ensures Quiet(TrimStart(s))
  {
    hide Quiet;
    if s != "" && IsSpace(s[0]) {
      QuietStep(s);
      assert |First(s).text| == 1;
      QuietTrimStart(s[1..]);
    }
  }

  lemma {:induction false} QuietShorter(s: string)
    requires Quiet(s) && s != "" && IsSpace(s[|s| - 1])
    ensures Quiet(s[..|s| - 1])
  {
    hide Quiet;
    QuietStep(s);
    var l, t := First(s), s[..|s| - 1];
    var n := |l.text|;
    if t == "" {
      assert Quiet("") by { EmptyIsQuiet(); }
    } else if n < |s| {
      var u := s[n..][..|s| - n - 1];
      assert t == l.text + u;
      if l.kind == Quoted { QuotedAgain(s, u); } else { PlainAgain(s, u); }
      QuietShorter(s[n..]);
      QuietStep(t);
      assert t[n..] == u;
    } else {
      QuoteShorter(s[1..], Closer(s[0]));
      assert t[1..] == s[1..][..|s| - 2];
      assert First(t) == Lexeme(Quoted, t);
      EmptyIsQuiet();
      QuietStep(t);
      assert t[|t|..] == "";
    }
  }

  lemma EmptyIsQuiet()
    ensures Quiet("")
  {
  }

  lemma {:induction false} QuietTrimEnd(s: string)
    requires Quiet(s)
    ensures Quiet(TrimEnd(s))
  {
    hide Quiet;
    if s != "" && IsSpace(s[|s| - 1]) {
      QuietShorter(s);
      QuietTrimEnd(s[..|s| - 1]);
    }
  }

  lemma {:induction false} TrimmedStart(s: string)
    ensures TrimStart(s) != "" ==> !IsSpace(TrimStart(s)[0])
  {
    hide IsSpace;
    if s != "" { TrimmedStart(s[1..]); }
  }

  lemma {:induction false} TrimmedEnd(s: string)
    ensures TrimEnd(s) <= s
    ensures TrimEnd(s) != "" ==> !IsSpace(TrimEnd(s)[|TrimEnd(s)| - 1])
  {
    hide IsSpace;
    if s != "" { TrimmedEnd(s[..|s| - 1]); }
  }

  lemma TrimTwice(s: string)
    ensures Trim(Trim(s)) == Trim(s)
  {
    TrimmedStart(s);
    TrimmedEnd(TrimStart(s));
  }

  lemma {:induction false} QuietShown(ls: seq<Lexeme>)
    requires forall l :: l in ls ==> l.kind == Quoted || l.kind == Plain
    ensures Piece(ls) == ls && ShownAll(ls) == Texts(ls)
  {
    if ls != [] { QuietShown(ls[1..]); }
  }

  lemma KeptIsStable(s: string, o: string)
    requires o in Kept(Out(s))
    ensures StatementsOf(o) == [o]
  {
    OutIsQuiet(s);
    QuietTrimStart(Out(s));
    QuietTrimEnd(TrimStart(Out(s)));
    assert Quiet(o) && o != "";
    QuietShown(Lexemes(o));
    LexemesCover(o);
    TrimTwice(Out(s));
    hide Trim, Lexemes, First;
  }

  lemma {:induction false} LexemesBehind(s: string, k: nat) returns (u: string)
    requires k <= |Lexemes(s)|
    ensures Lexemes(s)[k..] == Lexemes(u)
  {
    hide First;
    if k == 0 {
      u := s;
    } else {
      var rest := s[|First(s).text|..];
      assert Lexemes(s)[k..] == Lexemes(rest)[k - 1..];
      u := LexemesBehind(rest, k - 1);
    }
  }

  // Each statement found is, on its own, just that statement.
  lemma {:induction false} SplittingIsStable(s: string, o: string)
    requires o in StatementsOf(s)
    ensures StatementsOf(o) == [o]
    decreases |Lexemes(s)|
  {
    hide Lexemes, Kept;
    var ls := Lexemes(s);
    var p := Piece(ls);
    if o in Kept(ShownAll(p)) {
      KeptIsStable(s, o);
    } else {
      var u := LexemesBehind(s, |p| + 1);
      SplittingIsStable(u, o);
    }
  }
}
