/** The lexer in its three dialects, and the printer whose text it reads back. */
module Lexer {
  import opened Spans
  import opened Breakpoint

  datatype Dialect = Rust | TypeScript | Python

  /** What the host language counts as whitespace and as a number. */
  datatype Chars = Chars(space: char -> bool, numeral: string -> Option<real>)

  const SPECIAL: string := "()='\"!<>"

  // No non-ASCII character lowers to a letter of a keyword, so the three
  // lower-casing functions tell the same words to be keywords.
  function Lower(s: string): string {
    if |s| == 0 then "" else [if 'A' <= s[0] <= 'Z' then s[0] + ('a' - 'A') else s[0]] + Lower(s[1..])
  }

  function Classify(w: string, ch: Chars): Tok {
    var lw := Lower(w);
    if lw == "and" then TAnd
    else if lw == "or" then TOr
    else if lw == "not" then TNot
    else if lw == "contains" then TOp("contains")
    else if lw == "true" then TBool(true)
    else if lw == "false" then TBool(false)
    else match ch.numeral(w) case Some(n) => TNum(n) case None => TIdent(w)
  }

  function WordLength(s: string, ch: Chars): (n: nat)
    ensures n <= |s|
    ensures n > 0 <==> |s| > 0 && !ch.space(s[0]) && s[0] !in SPECIAL
  {
    if |s| > 0 && !ch.space(s[0]) && s[0] !in SPECIAL then 1 + WordLength(s[1..], ch) else 0
  }

  /** Characters before the first q, or all of them. */
  function BeforeQuote(s: string, q: char): (n: nat)
    ensures n <= |s|
  {
    if |s| == 0 || s[0] == q then 0 else 1 + BeforeQuote(s[1..], q)
  }

  /** The operator at the head of s. Rust and TypeScript take any of = ! < >
      with an optional = after it; Python knows six operators only. */
  function Operator(d: Dialect, s: string): (o: Option<string>)
    requires |s| > 0 && s[0] in "=!<>"
    ensures o.Some? ==> 0 < |o.value| <= |s| && o.value <= s
  {
    var two := |s| > 1 && s[1] == '=';
    if d == Python then
      if two then Some(s[..2]) else if s[0] in "><" then Some(s[..1]) else None
    else Some(if two then s[..2] else s[..1])
  }

  function Cons(t: Tok, r: Result<seq<Tok>>): Result<seq<Tok>> {
    match r case Err(x) => Err(x) case Ok(ts) => Ok([t] + ts)
  }

  /** What one turn of the lexer does at the head of s. */
  datatype Scan = Blank | Emit(t: Tok, n: nat) | Fail(error: Error)

  function ScanHead(d: Dialect, s: string, ch: Chars): (r: Scan)
    requires |s| > 0
    ensures r.Emit? ==> 0 < r.n <= |s|
  {
    if ch.space(s[0]) then Blank
    else if s[0] == '(' then Emit(TLParen, 1)
    else if s[0] == ')' then Emit(TRParen, 1)
    else if s[0] in "'\"" then
      var n := BeforeQuote(s[1..], s[0]);
      if 1 + n == |s| then Fail(UnterminatedString) else Emit(TStr(s[1..1 + n]), n + 2)
    else if s[0] in "=!<>" then
      match Operator(d, s)
      case None => Fail(BadOperator)
      case Some(o) => Emit(TOp(o), |o|)
    else
      var n := WordLength(s, ch);
      Emit(Classify(s[..n], ch), n)
  }

  function Tokens(d: Dialect, s: string, ch: Chars): Result<seq<Tok>>
    decreases |s|
  {
    if |s| == 0 then Ok([])
    else
      match ScanHead(d, s, ch)
      case Blank => Tokens(d, s[1..], ch)
      case Emit(t, n) => Cons(t, Tokens(d, s[n..], ch))
      case Fail(x) => Err(x)
  }

  function ParseSource(d: Dialect, s: string, ch: Chars): Result<Expr> {
    match Tokens(d, s, ch)
    case Err(x) => Err(x)
    case Ok(ts) => ParseTokens(ts)
  }

  // ---------- the lexer with its cursor ----------

  function Prepend(out: seq<Tok>, r: Result<seq<Tok>>): Result<seq<Tok>> {
    match r case Err(x) => Err(x) case Ok(ts) => Ok(out + ts)
  }

  lemma LexTurn(d: Dialect, b: string, ch: Chars, i: nat, out: seq<Tok>)
    requires i < |b|
    ensures var r := Prepend(out, Tokens(d, b[i..], ch));
            match ScanHead(d, b[i..], ch)
            case Blank => r == Prepend(out, Tokens(d, b[i + 1..], ch))
            case Emit(t, n) => r == Prepend(out + [t], Tokens(d, b[i + n..], ch))
            case Fail(x) => r == Err(x)
  {
    hide ScanHead;
    match ScanHead(d, b[i..], ch)
    case Blank => assert b[i..][1..] == b[i + 1..];
    case Fail(_) =>
    case Emit(t, n) =>
      assert b[i..][n..] == b[i + n..];
      var r := Tokens(d, b[i + n..], ch);
      if r.Ok? { assert out + ([t] + r.value) == (out + [t]) + r.value; }
  }

  lemma PrependNothing(r: Result<seq<Tok>>)
    ensures Prepend([], r) == r
  {
    if r.Ok? { assert [] + r.value == r.value; }
  }

  method Lex(d: Dialect, b: string, ch: Chars) returns (r: Result<seq<Tok>>)
    ensures r == Tokens(d, b, ch)
  {
    hide ScanHead;
    var i := 0;
    var out: seq<Tok> := [];
    PrependNothing(Tokens(d, b, ch));
    assert b[0..] == b;
    while i < |b|
      invariant i <= |b|
      invariant Prepend(out, Tokens(d, b[i..], ch)) == Tokens(d, b, ch)
    {
      LexTurn(d, b, ch, i, out);
      var scan := ScanAt(d, b, i, ch);
      match scan {
        case Blank => i := i + 1;
        case Emit(t, n) => out, i := out + [t], i + n;
        case Fail(x) => return Err(x);
      }
    }
    assert b[i..] == "" && out + [] == out;
    r := Ok(out);
  }

  /** The branches of the lexer loop at the cursor i. */
  method ScanAt(d: Dialect, b: string, i: nat, ch: Chars) returns (scan: Scan)
    requires i < |b|
    ensures scan == ScanHead(d, b[i..], ch)
  {
    var c := b[i];
    assert b[i..][0] == c && b[i..][1..] == b[i + 1..];
    if ch.space(c) {
      scan := Blank;
    } else if c == '(' {
      scan := Emit(TLParen, 1);
    } else if c == ')' {
      scan := Emit(TRParen, 1);
    } else if c in "'\"" {
      var j := ScanString(b, i + 1, c);
      if j >= |b| { return Fail(UnterminatedString); }
      assert b[i..][1..j - i] == b[i + 1..j];
      scan := Emit(TStr(b[i + 1..j]), j + 1 - i);
    } else if c in "=!<>" {
      var op := Operator(d, b[i..]);
      scan := if op.None? then Fail(BadOperator) else Emit(TOp(op.value), |op.value|);
    } else {
      var j := ScanWord(b, i, ch);
      assert b[i..][..j - i] == b[i..j];
      scan := Emit(Classify(b[i..j], ch), j - i);
    }
  }

  method ScanString(b: string, i: nat, q: char) returns (j: nat)
    requires i <= |b|
    ensures j == i + BeforeQuote(b[i..], q)
  {
    j := i;
    while j < |b| && b[j] != q
      invariant i <= j <= |b|
      invariant i + BeforeQuote(b[i..], q) == j + BeforeQuote(b[j..], q)
    {
      assert b[j..][1..] == b[j + 1..];
      j := j + 1;
    }
  }

  method ScanWord(b: string, i: nat, ch: Chars) returns (j: nat)
    requires i <= |b|
    ensures j == i + WordLength(b[i..], ch)
  {
    j := i;
    while j < |b| && !ch.space(b[j]) && b[j] !in SPECIAL
      invariant i <= j <= |b|
      invariant i + WordLength(b[i..], ch) == j + WordLength(b[j..], ch)
    {
      assert b[j..][1..] == b[j + 1..];
      j := j + 1;
    }
  }

  // ---------- the printer ----------

  function Prec(e: Expr): nat {
    match e case Or(_, _) => 0 case And(_, _) => 1 case Not(_) => 2 case Cmp(_, _, _) => 2
  }

  function Literal(v: Value): Tok {
    match v case Str(s) => TStr(s) case Num(n) => TNum(n) case Bool(b) => TBool(b) case Null => TStr("")
  }

  /** e without outer brackets. */
  function Body(e: Expr): seq<Tok>
    decreases e, 0
  {
    match e
    case Or(l, r) => At(l, 0) + [TOr] + At(r, 1)
    case And(l, r) => At(l, 1) + [TAnd] + At(r, 2)
    case Not(x) => [TNot] + At(x, 2)
    case Cmp(f, o, v) => [TIdent(f), TOp(o), Literal(v)]
  }

  /** e where precedence p is wanted: bracketed only if it binds less. */
  function At(e: Expr, p: nat): seq<Tok>
    decreases e, 1
  {
    if Prec(e) >= p then Body(e) else [TLParen] + Body(e) + [TRParen]
  }

  predicate NoNull(e: Expr) {
    match e
    case Or(l, r) => NoNull(l) && NoNull(r)
    case And(l, r) => NoNull(l) && NoNull(r)
    case Not(x) => NoNull(x)
    case Cmp(_, _, v) => !v.Null?
  }

  ghost predicate DeriveAt(p: nat, t: seq<Tok>, i: nat, j: nat, e: Expr, ops: set<string>)
    requires i <= j <= |t|
  {
    if p == 0 then DeriveOr(t, i, j, e, ops)
    else if p == 1 then DeriveAnd(t, i, j, e, ops)
    else DeriveNot(t, i, j, e, ops)
  }

  ghost predicate Occurs(w: seq<Tok>, t: seq<Tok>, i: nat) {
    i + |w| <= |t| && t[i..i + |w|] == w
  }

  lemma OccursSplit(u: seq<Tok>, v: seq<Tok>, t: seq<Tok>, i: nat)
    requires Occurs(u + v, t, i)
    ensures Occurs(u, t, i) && Occurs(v, t, i + |u|)
    ensures |v| > 0 ==> t[i + |u|] == v[0]
    ensures |u| > 0 ==> t[i] == u[0]
  {
    var s := t[i..i + |u + v|];
    assert t[i..i + |u|] == s[..|u|] == u;
    assert t[i + |u|..i + |u| + |v|] == s[|u|..] == v;
    if |v| > 0 { assert t[i + |u|] == s[|u|]; }
  }

  /** Wherever the printed tokens of e occur, they derive e. */
  lemma {:induction false} AtDerives(e: Expr, p: nat, t: seq<Tok>, i: nat, ops: set<string>)
    requires NoNull(e) && Ops(e) <= ops && p <= 2 && Occurs(At(e, p), t, i)
    ensures DeriveAt(p, t, i, i + |At(e, p)|, e, ops)
    decreases e, 1
  {
    if Prec(e) >= p {
      BodyDerives(e, t, i, ops);
    } else {
      OccursSplit([TLParen] + Body(e), [TRParen], t, i);
      OccursSplit([TLParen], Body(e), t, i);
      BodyDerives(e, t, i + 1, ops);
      assert DeriveOr(t, i + 1, i + 1 + |Body(e)|, e, ops);
      assert DerivePrimary(t, i, i + |At(e, p)|, e, ops);
    }
  }

  lemma {:induction false} OrBodyDerives(l: Expr, r: Expr, t: seq<Tok>, i: nat, ops: set<string>)
    requires NoNull(Or(l, r)) && Ops(Or(l, r)) <= ops && Occurs(Body(Or(l, r)), t, i)
    ensures DeriveOr(t, i, i + |Body(Or(l, r))|, Or(l, r), ops)
    decreases Or(l, r), 0, 0
  {
    hide DeriveAnd;
    var k := BinarySplit(At(l, 0), TOr, At(r, 1), t, i);
    AtDerives(l, 0, t, i, ops);
    AtDerives(r, 1, t, k + 1, ops);
    assert t[k] == TOr && DeriveOr(t, i, k, l, ops) && DeriveAnd(t, k + 1, i + |Body(Or(l, r))|, r, ops);
  }

  lemma {:induction false} AndBodyDerives(l: Expr, r: Expr, t: seq<Tok>, i: nat, ops: set<string>)
    requires NoNull(And(l, r)) && Ops(And(l, r)) <= ops && Occurs(Body(And(l, r)), t, i)
    ensures DeriveAnd(t, i, i + |Body(And(l, r))|, And(l, r), ops)
    decreases And(l, r), 0, 0
  {
    hide DeriveNot;
    var k := BinarySplit(At(l, 1), TAnd, At(r, 2), t, i);
    AtDerives(l, 1, t, i, ops);
    AtDerives(r, 2, t, k + 1, ops);
    assert t[k] == TAnd && DeriveAnd(t, i, k, l, ops) && DeriveNot(t, k + 1, i + |Body(And(l, r))|, r, ops);
  }

  lemma ComparisonDerives(e: Expr, t: seq<Tok>, i: nat, ops: set<string>)
    requires e.Cmp? && NoNull(e) && Ops(e) <= ops && Occurs(Body(e), t, i)
    ensures DerivePrimary(t, i, i + 3, e, ops)
  {
    assert t[i..i + 3] == Body(e);
    assert t[i] == t[i..i + 3][0] && t[i + 1] == t[i..i + 3][1] && t[i + 2] == t[i..i + 3][2];
    assert DeriveComparison(t, i, i + 3, e, ops);
  }

  lemma {:induction false} BodyDerives(e: Expr, t: seq<Tok>, i: nat, ops: set<string>)
    requires NoNull(e) && Ops(e) <= ops && Occurs(Body(e), t, i)
    ensures DeriveAt(Prec(e), t, i, i + |Body(e)|, e, ops)
    ensures DeriveOr(t, i, i + |Body(e)|, e, ops)
    ensures Prec(e) >= 1 ==> DeriveAnd(t, i, i + |Body(e)|, e, ops)
    decreases e, 0, 1
  {
    match e
    case Or(l, r) => OrBodyDerives(l, r, t, i, ops);
    case And(l, r) => AndBodyDerives(l, r, t, i, ops);
    case Not(x) =>
      OccursSplit([TNot], At(x, 2), t, i);
      AtDerives(x, 2, t, i + 1, ops);
      assert DeriveNot(t, i, i + |Body(e)|, e, ops);
    case Cmp(_, _, _) =>
      ComparisonDerives(e, t, i, ops);
  }

  lemma BinarySplit(u: seq<Tok>, op: Tok, v: seq<Tok>, t: seq<Tok>, i: nat) returns (k: nat)
    requires Occurs(u + [op] + v, t, i)
    ensures k == i + |u| < |t| && t[k] == op && Occurs(u, t, i) && Occurs(v, t, k + 1)
  {
    OccursSplit(u + [op], v, t, i);
    OccursSplit(u, [op], t, i);
    k := i + |u|;
  }

  /** Parsing the printed tokens gives back the expression. */
  lemma PrintedTokensParse(e: Expr)
    requires NoNull(e)
    ensures ParseTokens(At(e, 0)) == Ok(e)
  {
    var t := At(e, 0);
    assert t[0..|t|] == t;
    AtDerives(e, 0, t, 0, Ops(e));
    ParserMeetsGrammar(t, e, Ops(e));
  }

  // ---------- text of the tokens ----------

  function TokText(t: Tok, show: real -> string): string {
    match t
    case TIdent(w) => w
    case TStr(s) => if '\'' !in s then "'" + s + "'" else "\"" + s + "\""
    case TNum(n) => show(n)
    case TBool(b) => if b then "true" else "false"
    case TOp(o) => o
    case TAnd => "AND"
    case TOr => "OR"
    case TNot => "NOT"
    case TLParen => "("
    case TRParen => ")"
  }

  function Text(ts: seq<Tok>, show: real -> string): string {
    if |ts| == 0 then "" else TokText(ts[0], show) + " " + Text(ts[1..], show)
  }

  predicate IsWord(w: string, ch: Chars) {
    |w| > 0 && forall k :: 0 <= k < |w| ==> !ch.space(w[k]) && w[k] !in SPECIAL
  }

  /** Words are exactly the texts that the lexer takes whole. */
  lemma {:induction false} WordTakenWhole(w: string, ch: Chars)
    requires |w| > 0
    ensures IsWord(w, ch) <==> WordLength(w, ch) == |w|
  {
    if |w| > 1 {
      WordTakenWhole(w[1..], ch);
      assert IsWord(w, ch) <==> !ch.space(w[0]) && w[0] !in SPECIAL && IsWord(w[1..], ch) by {
        if IsWord(w[1..], ch) { assert forall k :: 1 <= k < |w| ==> w[k] == w[1..][k - 1]; }
      }
    }
  }

  predicate PrintableTok(t: Tok, ch: Chars, show: real -> string) {
    match t
    case TIdent(w) => IsWord(w, ch) && Classify(w, ch) == t
    case TNum(n) => IsWord(show(n), ch) && Classify(show(n), ch) == t
    case TStr(s) => '\'' !in s || '\"' !in s
    case TOp(o) => o in OPERATORS
    case _ => true
  }

  predicate IsLetter(c: char) { 'a' <= c <= 'z' || 'A' <= c <= 'Z' }

  /** A blank is whitespace; letters and the marks of the language are not. */
  ghost predicate SaneChars(ch: Chars) {
    && ch.space(' ')
    && (forall c :: IsLetter(c) ==> !ch.space(c))
    && (forall c :: c in SPECIAL ==> !ch.space(c))
  }

  lemma {:induction false} WordStops(w: string, rest: string, ch: Chars)
    requires ch.space(' ') && forall k :: 0 <= k < |w| ==> !ch.space(w[k]) && w[k] !in SPECIAL
    ensures WordLength(w + " " + rest, ch) == |w|
  {
    var s := w + " " + rest;
    if |w| > 0 {
      WordStops(w[1..], rest, ch);
      assert s[1..] == w[1..] + " " + rest;
    }
  }

  lemma {:induction false} QuoteStops(s: string, q: char, rest: string)
    requires q !in s
    ensures BeforeQuote(s + [q] + rest, q) == |s|
  {
    var u := s + [q] + rest;
    if |s| > 0 {
      QuoteStops(s[1..], q, rest);
      assert u[1..] == s[1..] + [q] + rest;
    }
  }

  lemma BlankSkipped(d: Dialect, rest: string, ch: Chars)
    requires ch.space(' ')
    ensures Tokens(d, " " + rest, ch) == Tokens(d, rest, ch)
  {
    assert (" " + rest)[1..] == rest;
  }

  lemma WordLexed(d: Dialect, w: string, rest: string, ch: Chars)
    requires ch.space(' ') && IsWord(w, ch)
    ensures Tokens(d, w + " " + rest, ch) == Cons(Classify(w, ch), Tokens(d, rest, ch))
  {
    var s := w + " " + rest;
    WordStops(w, rest, ch);
    assert s[0] == w[0];
    assert s[..|w|] == w && s[|w|..] == " " + rest;
    BlankSkipped(d, rest, ch);
  }

  lemma StringScanned(d: Dialect, text: string, q: char, rest: string, ch: Chars)
    requires q in "'\"" && q !in text && !ch.space(q)
    ensures ScanHead(d, [q] + text + [q] + rest, ch) == Emit(TStr(text), |text| + 2)
  {
    var s := [q] + text + [q] + rest;
    assert s[1..] == text + [q] + rest;
    QuoteStops(text, q, rest);
    assert s[1..1 + |text|] == text;
  }

  lemma StringLexed(d: Dialect, text: string, q: char, rest: string, ch: Chars)
    requires q in "'\"" && q !in text && SaneChars(ch)
    ensures Tokens(d, [q] + text + [q] + " " + rest, ch) == Cons(TStr(text), Tokens(d, rest, ch))
  {
    hide ScanHead;
    var s := [q] + text + [q] + (" " + rest);
    assert [q] + text + [q] + " " + rest == s;
    StringScanned(d, text, q, " " + rest, ch);
    assert s[|text| + 2..] == " " + rest;
    BlankSkipped(d, rest, ch);
  }

  lemma OperatorScanned(d: Dialect, o: string, rest: string, ch: Chars)
    requires o in OPERATORS && o != "contains" && SaneChars(ch)
    ensures ScanHead(d, o + " " + rest, ch) == Emit(TOp(o), |o|)
  {
    var s := o + " " + rest;
    assert s[0] == o[0] && s[..|o|] == o;
    if |o| == 1 { assert s[1] == ' '; } else { assert s[1] == '='; }
    assert Operator(d, s) == Some(o);
  }

  lemma OperatorLexed(d: Dialect, o: string, rest: string, ch: Chars)
    requires o in OPERATORS && o != "contains" && SaneChars(ch)
    ensures Tokens(d, o + " " + rest, ch) == Cons(TOp(o), Tokens(d, rest, ch))
  {
    hide ScanHead;
    OperatorScanned(d, o, rest, ch);
    assert (o + " " + rest)[|o|..] == " " + rest;
    BlankSkipped(d, rest, ch);
  }

  lemma BracketLexed(d: Dialect, t: Tok, rest: string, ch: Chars, show: real -> string)
    requires t in {TLParen, TRParen} && SaneChars(ch)
    ensures Tokens(d, TokText(t, show) + " " + rest, ch) == Cons(t, Tokens(d, rest, ch))
  {
    var s := TokText(t, show) + " " + rest;
    assert s[1..] == " " + rest;
    BlankSkipped(d, rest, ch);
  }

  lemma KeywordLexed(d: Dialect, w: string, l: string, rest: string, ch: Chars)
    requires SaneChars(ch) && |w| > 0 && forall k :: 0 <= k < |w| ==> IsLetter(w[k])
    requires l in {"and", "or", "not", "contains", "true", "false"} && Lowers(w, l)
    ensures Tokens(d, w + " " + rest, ch) == Cons(Keyword(l), Tokens(d, rest, ch))
  {
    LowerAt(w, l);
    assert forall c :: IsLetter(c) ==> c !in SPECIAL;
    WordLexed(d, w, rest, ch);
  }

  function Keyword(l: string): Tok {
    if l == "and" then TAnd else if l == "or" then TOr else if l == "not" then TNot
    else if l == "true" then TBool(true) else if l == "false" then TBool(false) else TOp("contains")
  }

  /** l is w in lower case, letter by letter. */
  predicate Lowers(w: string, l: string) {
    |w| == |l| && forall k :: 0 <= k < |w| ==> l[k] == if 'A' <= w[k] <= 'Z' then w[k] + ('a' - 'A') else w[k]
  }

  lemma {:induction false} LowerAt(s: string, l: string)
    requires Lowers(s, l)
    ensures Lower(s) == l
  {
    if |s| > 0 { LowerAt(s[1..], l[1..]); }
  }

  lemma KeywordTokenLexed(d: Dialect, t: Tok, rest: string, ch: Chars, show: real -> string)
    requires SaneChars(ch) && (t.TBool? || t.TAnd? || t.TOr? || t.TNot?)
    ensures Tokens(d, TokText(t, show) + " " + rest, ch) == Cons(t, Tokens(d, rest, ch))
  {
    hide Tokens;
    match t
    case TBool(b) =>
      if b { KeywordLexed(d, "true", "true", rest, ch); } else { KeywordLexed(d, "false", "false", rest, ch); }
    case TAnd => KeywordLexed(d, "AND", "and", rest, ch);
    case TOr => KeywordLexed(d, "OR", "or", rest, ch);
    case TNot => KeywordLexed(d, "NOT", "not", rest, ch);
  }

  lemma TokenLexed(d: Dialect, t: Tok, rest: string, ch: Chars, show: real -> string)
    requires SaneChars(ch) && PrintableTok(t, ch, show)
    ensures Tokens(d, TokText(t, show) + " " + rest, ch) == Cons(t, Tokens(d, rest, ch))
  {
    hide Tokens, Classify;
    match t
    case TIdent(w) => WordLexed(d, w, rest, ch);
    case TNum(n) => WordLexed(d, show(n), rest, ch);
    case TStr(s) => StringLexed(d, s, if '\'' !in s then '\'' else '\"', rest, ch);
    case TOp(o) => if o == "contains" { KeywordLexed(d, o, o, rest, ch); } else { OperatorLexed(d, o, rest, ch); }
    case TLParen => BracketLexed(d, t, rest, ch, show);
    case TRParen => BracketLexed(d, t, rest, ch, show);
    case _ => KeywordTokenLexed(d, t, rest, ch, show);
  }

  lemma {:induction false} TextLexed(d: Dialect, ts: seq<Tok>, ch: Chars, show: real -> string)
    requires SaneChars(ch) && forall t :: t in ts ==> PrintableTok(t, ch, show)
    ensures Tokens(d, Text(ts, show), ch) == Ok(ts)
  {
    if |ts| > 0 {
      TextLexed(d, ts[1..], ch, show);
      assert TokText(ts[0], show) + " " + Text(ts[1..], show) == Text(ts, show);
      assert [ts[0]] + ts[1..] == ts;
      TokenLexed(d, ts[0], Text(ts[1..], show), ch, show);
    }
  }

  const KEYWORDS: set<string> := {"and", "or", "not", "contains", "true", "false"}

  /** What can be printed: fields that are words, no keyword in any case and no
      number; the seven operators; texts without one of the two quotes; numbers whose
      text is a word that reads as that number. */
  predicate Printable(e: Expr, ch: Chars, show: real -> string) {
    match e
    case Or(l, r) => Printable(l, ch, show) && Printable(r, ch, show)
    case And(l, r) => Printable(l, ch, show) && Printable(r, ch, show)
    case Not(x) => Printable(x, ch, show)
    case Cmp(f, o, v) =>
      && IsWord(f, ch) && Lower(f) !in KEYWORDS && ch.numeral(f) == None && o in OPERATORS
      && match v
         case Str(s) => '\'' !in s || '\"' !in s
         case Num(n) => IsWord(show(n), ch) && Lower(show(n)) !in KEYWORDS && ch.numeral(show(n)) == Some(n)
         case Bool(_) => true
         case Null => false
  }

  lemma {:induction false} PrintableTokens(e: Expr, p: nat, ch: Chars, show: real -> string)
    requires Printable(e, ch, show)
    ensures NoNull(e) && forall t :: t in At(e, p) ==> PrintableTok(t, ch, show)
    decreases e
  {
    match e
    case Or(l, r) =>
      PrintableTokens(l, 0, ch, show);
      PrintableTokens(r, 1, ch, show);
    case And(l, r) =>
      PrintableTokens(l, 1, ch, show);
      PrintableTokens(r, 2, ch, show);
    case Not(x) => PrintableTokens(x, 2, ch, show);
    case Cmp(f, o, v) => PrintableComparison(e, ch, show);
    hide Classify, IsWord, Lower;
  }

  lemma PrintableComparison(e: Expr, ch: Chars, show: real -> string)
    requires Printable(e, ch, show) && e.Cmp?
    ensures NoNull(e) && forall t :: t in [TIdent(e.field), TOp(e.op), Literal(e.val)] ==> PrintableTok(t, ch, show)
  {}

  /** Every dialect reads the printed text of an expression as that expression. */
  lemma PrintParseRoundTrip(d: Dialect, e: Expr, ch: Chars, show: real -> string)
    requires SaneChars(ch) && Printable(e, ch, show)
    ensures ParseSource(d, Text(At(e, 0), show), ch) == Ok(e)
  {
    PrintableTokens(e, 0, ch, show);
    TextLexed(d, At(e, 0), ch, show);
    PrintedTokensParse(e);
  }
}
