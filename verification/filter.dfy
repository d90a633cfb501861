// The filter language of the log console: terms, parser and live predicate (packages/trace/src/filter.ts).
module Filters {
  import opened Wrappers
  import opened Trace
  import opened FilterScan

  const MAX_CHARS := 1024
  const MAX_TERMS := 32
  const MAX_VALUES := 32
  const MAX_TEXT_CHARS := 200

  const KINDS := {"event", "thought", "action", "observation", "message", "escalation", "reflex", "detector", "injected",
    "snapshot", "compute", "plan", "plan-node", "policy", "policy-rule", "group", "lifecycle", "protocol", "contract",
    "degradation"}

  const TIERS := {"S1", "S2", "external"}

  // A bound that is not there is unbounded.
  datatype TimeRange = TimeRange(min: Option<real>, max: Option<real>, minOpen: bool, maxOpen: bool)

  datatype SourcePattern = SourcePattern(owner: Option<string>, component: Option<string>)

  // The vocabularies the parser checks against, and how payloads are written: parameters of the model.
  datatype Vocabulary = Vocabulary(
    sourceFilter: string -> Option<seq<SourcePattern>>,
    sourceParts: string -> Option<(string, string)>,
    isMetric: string -> bool,
    jsonText: Value -> string)

  datatype ListKey = Agent | Group | Kind | Tier | Detector | Status

  datatype RefKey = Cause | Parent

  datatype Body =
    | Values(key: ListKey, values: seq<string>)
    | During(ranges: seq<TimeRange>)
    | Text(text: string)
    | Refs(ref: RefKey, seqs: seq<nat>)
    | From(patterns: seq<SourcePattern>)
    | Metrics(names: seq<string>)

  datatype Term = Term(negated: bool, body: Body)

  datatype Target = Records | Samples

  datatype Ast = Ast(target: Target, terms: seq<Term>)

  // Where a filter is wrong.
  datatype FilterError = FilterError(at: nat)

  // ---- one term --------------------------------------------------------------------------------------------------------------

  function IndexOf(s: string, c: char): (k: Option<nat>)
    ensures k.Some? ==> k.value < |s| && s[k.value] == c && c !in s[..k.value]
    ensures k.None? ==> c !in s
  {
    if s == "" then None
    else if s[0] == c then Some(0)
    else
      var r := IndexOf(s[1..], c);
      if r.None? then None else Some(r.value + 1)
  }

  function Split(s: string, c: char): (parts: seq<string>)
    ensures |parts| > 0
    decreases |s|
  {
    var k := IndexOf(s, c);
    if k.None? then [s] else [s[..k.value]] + Split(s[k.value + 1..], c)
  }

  predicate IsDigit(c: char) { '0' <= c <= '9' }

  predicate IsLower(c: char) { 'a' <= c <= 'z' }

  predicate IsUpper(c: char) { 'A' <= c <= 'Z' }

  predicate AllOf(s: string, p: char -> bool) { forall k :: 0 <= k < |s| ==> p(s[k]) }

  predicate IsId(s: string) {
    0 < |s| <= 64 && IsLower(s[0]) && AllOf(s, c => IsLower(c) || IsDigit(c) || c == '-')
  }

  predicate IsWord(s: string) {
    && 0 < |s| <= 64 && (IsLower(s[0]) || IsUpper(s[0]))
    && AllOf(s, c => IsLower(c) || IsUpper(c) || IsDigit(c) || c == '_' || c == '.' || c == '-')
  }

  function DigitsValue(s: string): nat
    requires AllOf(s, IsDigit)
  {
    if s == "" then 0 else DigitsValue(s[..|s| - 1]) * 10 + (s[|s| - 1] as int - '0' as int)
  }

  function Scale(n: nat): real { if n == 0 then 1.0 else 10.0 * Scale(n - 1) }

  lemma ScalePositive(n: nat)
    ensures Scale(n) > 0.0
  {
  }

  // Digits, or digits, a point and digits.
  function Number(s: string): Option<real> {
    match IndexOf(s, '.')
    case None => if s != "" && AllOf(s, IsDigit) then Some(DigitsValue(s) as real) else None
    case Some(k) =>
      var whole, part := s[..k], s[k + 1..];
      if whole != "" && part != "" && AllOf(whole, IsDigit) && AllOf(part, IsDigit) then
        ScalePositive(|part|);
        Some(DigitsValue(whole) as real + DigitsValue(part) as real / Scale(|part|))
      else None
  }

  function Dots(s: string): (k: Option<nat>)
    ensures k.Some? ==> k.value + 2 <= |s|
  {
    if |s| < 2 then None
    else if s[0] == '.' && s[1] == '.' then Some(0)
    else match Dots(s[1..]) case None => None case Some(k) => Some(k + 1)
  }

  function Range(s: string): Option<TimeRange> {
    var dots := Dots(s);
    if dots.Some? then
      var a, b := Number(s[..dots.value]), Number(s[dots.value + 2..]);
      if a.None? || b.None? || a.value > b.value then None else Some(TimeRange(a, b, false, false))
    else if |s| >= 3 && s[0] == '>' && s[1] == '=' then
      var n := Number(s[2..]); if n.None? then None else Some(TimeRange(n, None, false, false))
    else if |s| >= 3 && s[0] == '<' && s[1] == '=' then
      var n := Number(s[2..]); if n.None? then None else Some(TimeRange(None, n, false, false))
    else if |s| >= 2 && s[0] == '>' then
      var n := Number(s[1..]); if n.None? then None else Some(TimeRange(n, None, true, false))
    else if |s| >= 2 && s[0] == '<' then
      var n := Number(s[1..]); if n.None? then None else Some(TimeRange(None, n, false, true))
    else
      var n := Number(s); if n.None? then None else Some(TimeRange(n, n, false, false))
  }

  // A comma list: at most so many values, none of them empty.
  function List(value: string): Option<seq<string>> {
    var items := Split(value, ',');
    if |items| > MAX_VALUES || "" in items then None else Some(items)
  }

  predicate ValueOk(key: ListKey, x: string) {
    match key
    case Agent => IsId(x)
    case Group => IsId(x)
    case Kind => x in KINDS
    case Tier => x in TIERS
    case Detector => IsWord(x)
    case Status => IsWord(x)
  }

  function ListTerm(key: ListKey, value: string): Option<Body> {
    var items := List(value);
    if items.None? || exists x :: x in items.value && !ValueOk(key, x) then None else Some(Values(key, items.value))
  }

  function Ranges(items: seq<string>): Option<seq<TimeRange>> {
    if items == [] then Some([])
    else
      var r, rest := Range(items[0]), Ranges(items[1..]);
      if r.None? || rest.None? then None else Some([r.value] + rest.value)
  }

  // A record number: # and one to nine digits.
  function Numbers(items: seq<string>): Option<seq<nat>> {
    if items == [] then Some([])
    else
      var x, rest := items[0], Numbers(items[1..]);
      if rest.None? || !(2 <= |x| <= 10 && x[0] == '#' && AllOf(x[1..], IsDigit)) then None
      else Some([DigitsValue(x[1..])] + rest.value)
  }

  function BodyOf(v: Vocabulary, key: string, value: string): Option<Body> {
    match key
    case "agent" => ListTerm(Agent, value)
    case "group" => ListTerm(Group, value)
    case "kind" => ListTerm(Kind, value)
    case "tier" => ListTerm(Tier, value)
    case "detector" => ListTerm(Detector, value)
    case "status" => ListTerm(Status, value)
    case "t" =>
      var items := List(value);
      if items.None? then None
      else (match Ranges(items.value) case None => None case Some(rs) => Some(During(rs)))
    case "text" =>
      (match UnquoteOf(value)
       case Err(_) => None
       case Ok(text) => if 1 <= |text| <= MAX_TEXT_CHARS then Some(Text(text)) else None)
    case "cause" => RefTerm(Cause, value)
    case "parent" => RefTerm(Parent, value)
    case "source" => (match v.sourceFilter(value) case None => None case Some(ps) => Some(From(ps)))
    case "metric" =>
      var items := List(value);
      if items.None? || exists x :: x in items.value && !v.isMetric(x) then None else Some(Metrics(items.value))
    case _ => None
  }

  function RefTerm(ref: RefKey, value: string): Option<Body> {
    var items := List(value);
    if items.None? then None
    else match Numbers(items.value) case None => None case Some(ns) => Some(Refs(ref, ns))
  }

  function TermOf(v: Vocabulary, token: string): Option<Term> {
    var negated := token != "" && token[0] == '-';
    var body := if negated then token[1..] else token;
    var colon := IndexOf(body, ':');
    if colon.None? || colon.value == 0 then None
    else
      var value := body[colon.value + 1..];
      if value == "" then None
      else match BodyOf(v, body[..colon.value], value) case None => None case Some(b) => Some(Term(negated, b))
  }

  // ---- the parser --------------------------------------------------------------------------------------------------------------

  // The terms of the tokens, or where the first that is wrong begins.
  function TermsOf(v: Vocabulary, tokens: seq<Token>): Result<seq<Term>, FilterError> {
    if tokens == [] then Ok([])
    else
      match TermOf(v, tokens[0].text)
      case None => Err(FilterError(tokens[0].at))
      case Some(t) =>
        (match TermsOf(v, tokens[1..]) case Err(e) => Err(e) case Ok(ts) => Ok([t] + ts))
  }

  predicate ForSamples(t: Term) { t.body.Metrics? || t.body.From? || t.body.During? || (t.body.Values? && t.body.key == Agent) }

  predicate WantsSamples(terms: seq<Term>) { exists t :: t in terms && t.body.Metrics? }

  // The position of the first term that does not apply to samples.
  function Misfit(terms: seq<Term>): (k: Option<nat>)
    ensures k.Some? ==> k.value < |terms| && !ForSamples(terms[k.value])
    ensures k.None? <==> forall t :: t in terms ==> ForSamples(t)
  {
    if terms == [] then None
    else if !ForSamples(terms[0]) then Some(0)
    else match Misfit(terms[1..]) case None => None case Some(k) => Some(k + 1)
  }

  lemma {:induction false} TermsCount(v: Vocabulary, tokens: seq<Token>)
    ensures TermsOf(v, tokens).Ok? ==> |TermsOf(v, tokens).value| == |tokens|
  {
    hide TermOf;
    if tokens != [] { TermsCount(v, tokens[1..]); }
  }

  function ParseOf(v: Vocabulary, text: string): Result<Ast, FilterError> {
    if |text| > MAX_CHARS then Err(FilterError(MAX_CHARS))
    else
      var scanned := ScanOf(text);
      var tokens := scanned.tokens;
      if scanned.unclosedAt.Some? then Err(FilterError(scanned.unclosedAt.value))
      else if |tokens| > MAX_TERMS then Err(FilterError(tokens[MAX_TERMS].at))
      else
        match TermsOf(v, tokens)
        case Err(e) => Err(e)
        case Ok(terms) =>
          TermsCount(v, tokens);
          if !WantsSamples(terms) then Ok(Ast(Records, terms))
          else match Misfit(terms) case Some(k) => Err(FilterError(tokens[k].at)) case None => Ok(Ast(Samples, terms))
  }

  method ParseFilter(v: Vocabulary, text: string) returns (r: Result<Ast, FilterError>)
    ensures r == ParseOf(v, text)
  {
    hide TermOf, Misfit;
    if |text| > MAX_CHARS { return Err(FilterError(MAX_CHARS)); }
    var scanned := Scan(text);
    if scanned.unclosedAt.Some? { return Err(FilterError(scanned.unclosedAt.value)); }
    var tokens := scanned.tokens;
    if |tokens| > MAX_TERMS { return Err(FilterError(tokens[MAX_TERMS].at)); }
    var terms: seq<Term> := [];
    var wants := false;
    assert tokens[0..] == tokens;
    AppendedNothing(TermsOf(v, tokens));
    for i := 0 to |tokens|
      invariant |terms| == i
      invariant wants <==> WantsSamples(terms)
      invariant TermsOf(v, tokens) == Appended(terms, TermsOf(v, tokens[i..]))
    {
      assert tokens[i..][0] == tokens[i] && tokens[i..][1..] == tokens[i + 1..];
      var t := TermOf(v, tokens[i].text);
      if t.None? { return Err(FilterError(tokens[i].at)); }
      AppendedTwice(terms, t.value, TermsOf(v, tokens[i + 1..]));
      WantsMore(terms, t.value);
      if t.value.body.Metrics? { wants := true; }
      terms := terms + [t.value];
    }
    assert tokens[|tokens|..] == [] && terms + [] == terms;
    if !wants { return Ok(Ast(Records, terms)); }
    var k := Misfit(terms);
    if k.Some? { return Err(FilterError(tokens[k.value].at)); }
    return Ok(Ast(Samples, terms));
  }

  ghost function Appended(head: seq<Term>, r: Result<seq<Term>, FilterError>): Result<seq<Term>, FilterError> {
    match r case Ok(ts) => Ok(head + ts) case Err(e) => Err(e)
  }

  lemma AppendedTwice(head: seq<Term>, t: Term, r: Result<seq<Term>, FilterError>)
    ensures Appended(head, Appended([t], r)) == Appended(head + [t], r)
  {
    if r.Ok? { assert head + ([t] + r.value) == (head + [t]) + r.value; }
  }

  lemma AppendedNothing(r: Result<seq<Term>, FilterError>)
    ensures Appended([], r) == r
  {
    if r.Ok? { assert [] + r.value == r.value; }
  }

  lemma WantsMore(terms: seq<Term>, t: Term)
    ensures WantsSamples(terms + [t]) <==> WantsSamples(terms) || t.body.Metrics?
  {
    assert t in terms + [t];
    assert forall x :: x in terms ==> x in terms + [t];
  }

  // ---- the live predicate --------------------------------------------------------------------------------------------------------

  datatype Sample = Sample(name: string, source: string, simTime: real)

  function LowerChar(c: char): char { if IsUpper(c) then (c as int + 32) as char else c }

  function AsciiLower(s: string): string { if s == "" then "" else [LowerChar(s[0])] + AsciiLower(s[1..]) }

  predicate IsAt(s: string, part: string, k: int) { 0 <= k <= |s| - |part| && s[k..k + |part|] == part }

  predicate Contains(s: string, part: string) { exists k :: 0 <= k <= |s| && IsAt(s, part, k) }

  predicate InRange(t: real, r: TimeRange) {
    && (r.min.Some? ==> if r.minOpen then t > r.min.value else t >= r.min.value)
    && (r.max.Some? ==> if r.maxOpen then t < r.max.value else t <= r.max.value)
  }

  predicate PatternFits(x: SourcePattern, p: (string, string)) {
    (x.owner.None? || x.owner.value == p.0) && (x.component.None? || x.component.value == p.1)
  }

  predicate MatchesSource(v: Vocabulary, patterns: seq<SourcePattern>, source: string) {
    var p := v.sourceParts(source);
    p.Some? && exists x :: x in patterns && PatternFits(x, p.value)
  }

  function PayloadString(r: TraceRecord, field: string): Option<string> {
    if r.payload.Obj? && field in r.payload.fields && r.payload.fields[field].Str? then Some(r.payload.fields[field].s) else None
  }

  function Subject(key: ListKey, r: TraceRecord): Option<string> {
    match key
    case Agent => r.agentId
    case Group => r.groupId
    case Kind => Some(r.kind)
    case Tier => r.tier
    case Detector => PayloadString(r, "detector")
    case Status => PayloadString(r, "status")
  }

  predicate RecordTerm(v: Vocabulary, b: Body, r: TraceRecord) {
    match b
    case Values(key, values) => var s := Subject(key, r); s.Some? && s.value in values
    case During(ranges) => exists x :: x in ranges && InRange(r.simTime, x)
    case Text(text) => Contains(AsciiLower(v.jsonText(r.payload)), AsciiLower(text))
    case Refs(Cause, seqs) =>
      r.causeIds.Some? && exists c :: c in r.causeIds.value && exists n :: n in seqs && c == RecordId(r.runId, n)
    case Refs(Parent, seqs) => r.parentId.Some? && exists n :: n in seqs && r.parentId.value == RecordId(r.runId, n)
    case From(patterns) => MatchesSource(v, patterns, r.source)
    case Metrics(_) => false
  }

  predicate MatchesRecord(v: Vocabulary, ast: Ast, r: TraceRecord) {
    ast.target == Records && forall k :: 0 <= k < |ast.terms| ==> RecordTerm(v, ast.terms[k].body, r) != ast.terms[k].negated
  }

  predicate SampleTerm(v: Vocabulary, b: Body, s: Sample) {
    match b
    case Metrics(names) => s.name in names
    case From(patterns) => MatchesSource(v, patterns, s.source)
    case During(ranges) => exists x :: x in ranges && InRange(s.simTime, x)
    case Values(Agent, values) => var p := v.sourceParts(s.source); p.Some? && p.value.0 in values
    case _ => false
  }

  predicate MatchesSample(v: Vocabulary, ast: Ast, s: Sample) {
    ast.target == Samples && forall k :: 0 <= k < |ast.terms| ==> SampleTerm(v, ast.terms[k].body, s) != ast.terms[k].negated
  }

  // ---- joining filters -------------------------------------------------------------------------------------------------------------

  lemma {:induction false} TermsOfShifted(v: Vocabulary, b: seq<Token>, d: nat)
    requires TermsOf(v, b).Ok?
    ensures TermsOf(v, ShiftTokens(b, d)) == TermsOf(v, b)
  {
    hide TermOf;
    if b != [] {
      var bs := ShiftTokens(b, d);
      assert bs[0].text == b[0].text && bs[1..] == ShiftTokens(b[1..], d);
      TermsOfShifted(v, b[1..], d);
    }
  }

  lemma {:induction false} TermsOfConcat(v: Vocabulary, a: seq<Token>, b: seq<Token>)
    requires TermsOf(v, a).Ok? && TermsOf(v, b).Ok?
    ensures TermsOf(v, a + b) == Ok(TermsOf(v, a).value + TermsOf(v, b).value)
  {
    hide TermOf;
    if a == [] {
      assert a + b == b && [] + TermsOf(v, b).value == TermsOf(v, b).value;
    } else {
      assert (a + b)[0] == a[0] && (a + b)[1..] == a[1..] + b;
      TermsOfConcat(v, a[1..], b);
      var t, ta, tb := TermOf(v, a[0].text).value, TermsOf(v, a[1..]).value, TermsOf(v, b).value;
      assert [t] + (ta + tb) == ([t] + ta) + tb;
    }
  }

  // The target a list of terms has, if it is a filter at all.
  function TargetOf(terms: seq<Term>): Option<Target> {
    if !WantsSamples(terms) then Some(Records) else if Misfit(terms).None? then Some(Samples) else None
  }

  lemma ParsedTarget(v: Vocabulary, text: string)
    requires ParseOf(v, text).Ok?
    ensures var ast := ParseOf(v, text).value;
      TargetOf(ast.terms) == Some(ast.target) && TermsOf(v, ScanOf(text).tokens) == Ok(ast.terms)
      && ScanOf(text).unclosedAt == None && |ast.terms| == |ScanOf(text).tokens| <= MAX_TERMS
  {
    TermsCount(v, ScanOf(text).tokens);
  }

  // Two filters joined by a space are the filter of all their terms; they are no filter only when one selects samples and
  // the other has a term that does not apply to them.
  lemma JoinedParse(v: Vocabulary, a: string, b: string)
    requires ParseOf(v, a).Ok? && ParseOf(v, b).Ok?
    requires |a| + 1 + |b| <= MAX_CHARS
    requires |ScanOf(a).tokens| + |ScanOf(b).tokens| <= MAX_TERMS
    ensures var terms := ParseOf(v, a).value.terms + ParseOf(v, b).value.terms;
      var joined := ParseOf(v, a + " " + b);
      match TargetOf(terms) case None => joined.Err? case Some(target) => joined == Ok(Ast(target, terms))
  {
    hide ScanOf, TermOf, WantsSamples, Misfit;
    ParsedTarget(v, a);
    ParsedTarget(v, b);
    ScanJoined(a, b);
    TermsOfShifted(v, ScanOf(b).tokens, |a| + 1);
    TermsOfConcat(v, ScanOf(a).tokens, ShiftTokens(ScanOf(b).tokens, |a| + 1));
    hide TermsOf;
  }

  lemma SameTarget(a: seq<Term>, b: seq<Term>)
    requires TargetOf(a).Some? && TargetOf(a) == TargetOf(b)
    ensures TargetOf(a + b) == TargetOf(a)
  {
    hide ForSamples;
    assert forall t :: t in a + b <==> t in a || t in b;
  }

  // Two filters of one target joined by a space match exactly the conjunction.
  lemma JoinedMatchesBoth(v: Vocabulary, a: string, b: string, r: TraceRecord, s: Sample)
    requires ParseOf(v, a).Ok? && ParseOf(v, b).Ok? && ParseOf(v, a).value.target == ParseOf(v, b).value.target
    requires |a| + 1 + |b| <= MAX_CHARS
    requires |ScanOf(a).tokens| + |ScanOf(b).tokens| <= MAX_TERMS
    ensures ParseOf(v, a + " " + b).Ok?
    ensures var A, B, C := ParseOf(v, a).value, ParseOf(v, b).value, ParseOf(v, a + " " + b).value;
      && (MatchesRecord(v, C, r) <==> MatchesRecord(v, A, r) && MatchesRecord(v, B, r))
      && (MatchesSample(v, C, s) <==> MatchesSample(v, A, s) && MatchesSample(v, B, s))
  {
    ParsedTarget(v, a);
    ParsedTarget(v, b);
    var A, B := ParseOf(v, a).value, ParseOf(v, b).value;
    SameTarget(A.terms, B.terms);
    JoinedParse(v, a, b);
    MatchConcat(v, A.target, A.terms, B.terms, r, s);
    hide ParseOf, TargetOf, MatchesRecord, MatchesSample;
  }

  lemma MatchConcat(v: Vocabulary, target: Target, a: seq<Term>, b: seq<Term>, r: TraceRecord, s: Sample)
    ensures MatchesRecord(v, Ast(target, a + b), r) <==> MatchesRecord(v, Ast(target, a), r) && MatchesRecord(v, Ast(target, b), r)
    ensures MatchesSample(v, Ast(target, a + b), s) <==> MatchesSample(v, Ast(target, a), s) && MatchesSample(v, Ast(target, b), s)
  {
    hide RecordTerm, SampleTerm;
    assert forall k :: 0 <= k < |a| ==> (a + b)[k] == a[k];
    assert forall k :: 0 <= k < |b| ==> (a + b)[|a| + k] == b[k];
  }

  // ---- any text can be searched for ---------------------------------------------------------------------------------------------------

  lemma {:induction false} EscapeLength(s: string)
    ensures |Escape(s)| <= 2 * |s|
    ensures s != "" ==> Escape(s) != ""
  {
    if s != "" { EscapeLength(s[1..]); }
  }

  lemma IndexOfColon(key: string, rest: string)
    requires ':' !in key
    ensures IndexOf(key + ":" + rest, ':') == Some(|key|)
  {
    var s := key + ":" + rest;
    assert s[|key|] == ':';
  }

  // Every text of 1 to 200 characters, escaped and quoted, parses back to itself.
  lemma TextParsesBack(v: Vocabulary, s: string)
    requires 1 <= |s| <= MAX_TEXT_CHARS
    ensures ParseOf(v, "text:" + Quote(s)) == Ok(Ast(Records, [Term(false, Text(s))]))
  {
    hide TermOf, TermsOf, Quote, ScanOf, WantsSamples, Misfit, Escape;
    var text := "text" + ":" + Quote(s);
    assert text == "text:" + Quote(s);
    QuoteLength(s);
    PlainKey();
    QuotedIsOneToken("text", s);
    TextTerm(v, s);
    OneTerm(v, Token(text, 0), Term(false, Text(s)));
  }

  lemma QuoteLength(s: string)
    ensures |Quote(s)| <= 2 * |s| + 2
  {
    EscapeLength(s);
  }

  lemma PlainKey()
    ensures !IsSpace('t') && !IsSpace('e') && !IsSpace('x')
  {
  }

  lemma OneTerm(v: Vocabulary, token: Token, t: Term)
    requires TermOf(v, token.text) == Some(t) && !t.body.Metrics?
    ensures TermsOf(v, [token]) == Ok([t]) && !WantsSamples([t])
  {
    hide TermOf;
    assert [token][1..] == [] && TermsOf(v, []) == Ok([]);
    assert [t] + [] == [t];
  }

  lemma TextTerm(v: Vocabulary, s: string)
    requires 1 <= |s| <= MAX_TEXT_CHARS
    ensures TermOf(v, "text" + ":" + Quote(s)) == Some(Term(false, Text(s)))
  {
    var token := "text" + ":" + Quote(s);
    IndexOfColon("text", Quote(s));
    assert token[0] == 't';
    assert token[..4] == "text" && token[5..] == Quote(s);
    QuoteRoundTrip(s);
  }

  // A minus in front of a term inverts it.
  lemma MinusInverts(v: Vocabulary, token: string, r: TraceRecord, s: Sample)
    requires token != "" && token[0] != '-'
    ensures TermOf(v, "-" + token) == match TermOf(v, token) case None => None case Some(t) => Some(Term(true, t.body))
    ensures TermOf(v, token).Some? ==>
      var t, n := TermOf(v, token).value, TermOf(v, "-" + token).value;
      && (MatchesRecord(v, Ast(Records, [n]), r) <==> !MatchesRecord(v, Ast(Records, [t]), r))
      && (MatchesSample(v, Ast(Samples, [n]), s) <==> !MatchesSample(v, Ast(Samples, [t]), s))
  {
    hide BodyOf, RecordTerm, SampleTerm;
    assert ("-" + token)[1..] == token;
    if TermOf(v, token).Some? {
      var t, n := TermOf(v, token).value, TermOf(v, "-" + token).value;
      assert [t][0] == t && [n][0] == n;
    }
  }
}
