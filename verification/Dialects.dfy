/**
 How far the three copies of the breakpoint language agree: which sources they
 accept, and what their evaluators make of one expression.
 */
module Dialects {
  import opened Spans
  import opened Breakpoint
  import opened Lexer

  // ---------- acceptance ----------

  /** The operator tokens only Rust and TypeScript make; they compare false. */
  const LONE: set<string> := {"=", "!"}

  ghost predicate NoLoneOp(ts: seq<Tok>) {
    forall t :: t in ts && t.TOp? ==> t.op !in LONE
  }

  lemma LonePrefix(s: string, o: string)
    requires |s| > 0 && s[0] in "=!<>" && o == (if |s| > 1 && s[1] == '=' then s[..2] else s[..1])
    ensures o in LONE <==> !(|s| > 1 && s[1] == '=') && s[0] !in "><"
  {
    assert o[0] == s[0];
    if !(|s| > 1 && s[1] == '=') { assert o == [s[0]]; }
  }

  lemma HeadsCompared(s: string, ch: Chars)
    requires |s| > 0
    ensures ScanHead(TypeScript, s, ch) == ScanHead(Rust, s, ch)
    ensures var r := ScanHead(Rust, s, ch);
            ScanHead(Python, s, ch) ==
              if r.Emit? && r.t.TOp? && r.t.op in LONE then Fail(BadOperator) else r
  {
    if s[0] in "=!<>" && !ch.space(s[0]) { LonePrefix(s, Operator(Rust, s).value); }
  }

  /** Python reads the same tokens and rejects the sources with a lone = or !. */
  lemma {:induction false} TokensCompared(s: string, ch: Chars)
    ensures Tokens(TypeScript, s, ch) == Tokens(Rust, s, ch)
    ensures var r, p := Tokens(Rust, s, ch), Tokens(Python, s, ch);
            && (p.Ok? <==> r.Ok? && NoLoneOp(r.value))
            && (p.Ok? ==> p == r)
    decreases |s|
  {
    hide ScanHead;
    if |s| > 0 {
      HeadsCompared(s, ch);
      match ScanHead(Rust, s, ch)
      case Blank => TokensCompared(s[1..], ch);
      case Fail(_) =>
      case Emit(t, n) =>
        TokensCompared(s[n..], ch);
        var r := Tokens(Rust, s[n..], ch);
        if r.Ok? {
          assert [t] + r.value == Tokens(Rust, s, ch).value;
          assert forall u :: u in [t] + r.value <==> u == t || u in r.value;
        }
    }
  }

  /** Rust and TypeScript parse every source alike. Python accepts exactly those
      of them without a comparison by a lone = or !, with the same result. */
  lemma AcceptanceCompared(s: string, ch: Chars)
    ensures ParseSource(TypeScript, s, ch) == ParseSource(Rust, s, ch)
    ensures var r, p := ParseSource(Rust, s, ch), ParseSource(Python, s, ch);
            && (p.Ok? <==> r.Ok? && Ops(r.value) !! LONE)
            && (p.Ok? ==> p == r)
  {
    TokensCompared(s, ch);
    var r := ParseSource(Rust, s, ch);
    if r.Ok? {
      var t := Tokens(Rust, s, ch).value;
      ParserMeetsGrammar(t, r.value, Ops(r.value));
      OpsOfOr(t, 0, |t|, r.value, Ops(r.value));
      assert NoLoneOp(t) <==> Ops(r.value) !! LONE by {
        forall o | o in LONE ensures o in Ops(r.value) <==> TOp(o) in t {}
        if o :| o in LONE && o in Ops(r.value) { assert TOp(o) in t && TOp(o).TOp?; }
        if x :| x in t && x.TOp? && x.op in LONE { assert TOp(x.op) in t; assert x.op in Ops(r.value) && x.op in LONE; }
      }
    }
  }

  /** The operator tokens a copy can make. */
  function OpTokens(d: Dialect): set<string> {
    if d == Python then OPERATORS else OPERATORS + LONE
  }

  lemma HeadOpKnown(d: Dialect, s: string, ch: Chars)
    requires |s| > 0
    ensures var r := ScanHead(d, s, ch); r.Emit? && r.t.TOp? ==> r.t.op in OpTokens(d)
  {
    var r := ScanHead(d, s, ch);
    if r.Emit? && r.t.TOp? && s[0] in "=!<>" {
      var o := r.t.op;
      assert o[0] == s[0] && (|o| == 2 ==> o[1] == s[1]);
      assert o == if |o| == 2 then [s[0], '='] else [s[0]];
    }
  }

  lemma {:induction false} LexedOpsKnown(d: Dialect, s: string, ch: Chars)
    ensures Tokens(d, s, ch).Ok? ==> OpsWithin(Tokens(d, s, ch).value, OpTokens(d))
    decreases |s|
  {
    hide ScanHead;
    if |s| > 0 {
      match ScanHead(d, s, ch)
      case Blank => LexedOpsKnown(d, s[1..], ch);
      case Fail(_) =>
      case Emit(t, n) =>
        HeadOpKnown(d, s, ch);
        LexedOpsKnown(d, s[n..], ch);
    }
  }

  /** Each copy accepts exactly the sources whose tokens derive an expression
      with the operator tokens it makes. */
  lemma SourcesMeetGrammar(d: Dialect, s: string, ch: Chars, e: Expr)
    ensures ParseSource(d, s, ch) == Ok(e) <==>
              Tokens(d, s, ch).Ok? && Derives(Tokens(d, s, ch).value, e, OpTokens(d))
  {
    hide Tokens, ParseTokens, Derives, OpTokens, OpsBetween;
    LexedOpsKnown(d, s, ch);
    if Tokens(d, s, ch).Ok? {
      var t := Tokens(d, s, ch).value;
      ParserMeetsGrammar(t, e, OpTokens(d));
      if ParseTokens(t) == Ok(e) { ParsedOpsWithin(t, e, OpTokens(d)); }
    }
  }

  lemma ParsedOpsWithin(t: seq<Tok>, e: Expr, ops: set<string>)
    requires ParseTokens(t) == Ok(e)
    ensures Ops(e) <= ops <==> OpsWithin(t, ops)
  {
    hide ParseTokens;
    ParserMeetsGrammar(t, e, Ops(e));
    OpsOfOr(t, 0, |t|, e, Ops(e));
    hide DeriveOr;
    if OpsWithin(t, ops) {
      forall o | o in Ops(e) ensures o in ops {
        var k :| 0 <= k < |t| && t[k] == TOp(o);
      }
    }
    if Ops(e) <= ops {
      forall k | 0 <= k < |t| && t[k].TOp? ensures t[k].op in ops {
        assert t[k] == TOp(t[k].op);
      }
    }
  }

  /** Python accepts no source outside the stated grammar. Rust and TypeScript
      do, and those sources are the ones with a lone = or !. */
  lemma OutsideTheGrammar(s: string, ch: Chars, e: Expr)
    ensures ParseSource(Python, s, ch) == Ok(e) ==> Derives(Tokens(Python, s, ch).value, e, OPERATORS)
    ensures forall d :: d != Python && ParseSource(d, s, ch) == Ok(e) ==>
              (Derives(Tokens(d, s, ch).value, e, OPERATORS) <==> NoLoneOp(Tokens(d, s, ch).value))
  {
    hide Tokens, ParseTokens, Derives;
    SourcesMeetGrammar(Python, s, ch, e);
    forall d: Dialect | d != Python && ParseSource(d, s, ch) == Ok(e)
      ensures Derives(Tokens(d, s, ch).value, e, OPERATORS) <==> NoLoneOp(Tokens(d, s, ch).value)
    {
      var t := Tokens(d, s, ch).value;
      ParserMeetsGrammar(t, e, OPERATORS);
      ParsedOpsWithin(t, e, OPERATORS);
      LexedOpsKnown(d, s, ch);
      KnownOrLone(t);
    }
  }

  lemma KnownOrLone(t: seq<Tok>)
    requires OpsWithin(t, OPERATORS + LONE)
    ensures OpsWithin(t, OPERATORS) <==> NoLoneOp(t)
  {
    assert OPERATORS !! LONE;
    hide OPERATORS, LONE;
    if NoLoneOp(t) {
      forall k | 0 <= k < |t| && t[k].TOp? ensures t[k].op in OPERATORS {
        assert t[k] in t;
      }
    }
  }

  lemma LoneScanned(d: Dialect, o: string, rest: string, ch: Chars)
    requires o in LONE && SaneChars(ch)
    ensures ScanHead(d, o + " " + rest, ch) == if d == Python then Fail(BadOperator) else Emit(TOp(o), 1)
  {
    var s := o + " " + rest;
    assert s[0] == o[0] && s[1] == ' ' && s[..1] == o;
  }

  lemma LoneLexed(d: Dialect, o: string, rest: string, ch: Chars)
    requires o in LONE && SaneChars(ch)
    ensures Tokens(d, o + " " + rest, ch) == if d == Python then Err(BadOperator) else Cons(TOp(o), Tokens(d, rest, ch))
  {
    assert |o| == 1;
    hide ScanHead, LONE;
    LoneScanned(d, o, rest, ch);
    assert (o + " " + rest)[1..] == " " + rest;
    BlankSkipped(d, rest, ch);
  }

  lemma LoneParsed(field: string, o: string, text: string)
    ensures ParseTokens([TIdent(field), TOp(o), TStr(text)]) == Ok(Cmp(field, o, Str(text)))
  {
    var t, e := [TIdent(field), TOp(o), TStr(text)], Cmp(field, o, Str(text));
    assert DeriveComparison(t, 0, 3, e, {o}) && DerivePrimary(t, 0, 3, e, {o});
    assert DeriveNot(t, 0, 3, e, {o}) && DeriveAnd(t, 0, 3, e, {o});
    ParserMeetsGrammar(t, e, {o});
  }

  /** There are such sources: a field compared with a text by a lone operator,
      as in kind = 'x'. */
  lemma LoneOpsAccepted(d: Dialect, field: string, o: string, text: string, ch: Chars)
    requires SaneChars(ch) && IsWord(field, ch) && Classify(field, ch) == TIdent(field)
    requires o in LONE && '\'' !in text
    ensures ParseSource(d, field + " " + (o + " " + ("'" + text + "'")), ch)
              == if d == Python then Err(BadOperator) else Ok(Cmp(field, o, Str(text)))
  {
    hide Tokens, ParseTokens, Classify, IsWord, LONE;
    var quoted := "'" + text + "'";
    QuotedLexed(d, text, ch);
    LoneLexed(d, o, quoted, ch);
    WordLexed(d, field, o + " " + quoted, ch);
    LoneParsed(field, o, text);
    assert [TIdent(field)] + ([TOp(o)] + [TStr(text)]) == [TIdent(field), TOp(o), TStr(text)];
  }

  lemma QuotedLexed(d: Dialect, text: string, ch: Chars)
    requires SaneChars(ch) && '\'' !in text
    ensures Tokens(d, "'" + text + "'", ch) == Ok([TStr(text)])
  {
    hide ScanHead;
    var s := ['\''] + text + ['\''] + "";
    assert s == "'" + text + "'";
    StringScanned(d, text, '\'', "", ch);
    assert s[|text| + 2..] == "";
    var none: seq<Tok> := [];
    assert [TStr(text)] + none == [TStr(text)] && Tokens(d, "", ch) == Ok(none);
  }

  // ---------- evaluation ----------

  predicate Contains(x: string, y: string) {
    y <= x || (|x| > 0 && Contains(x[1..], y))
  }

  predicate Compare(op: string, x: real, y: real) {
    match op
    case ">" => x > y
    case "<" => x < y
    case ">=" => x >= y
    case _ => x <= y
  }

  predicate RustCmp(a: Value, op: string, b: Value) {
    if op == "==" then a == b
    else if op == "!=" then a != b
    else if op == "contains" then a.Str? && b.Str? && Contains(a.s, b.s)
    else if op in {">", "<", ">=", "<="} then a.Num? && b.Num? && Compare(op, a.n, b.n)
    else false
  }

  predicate TsCmp(a: Value, op: string, b: Value) {
    if op == "==" then a == b
    else if op == "!=" then a != b
    else if op == "contains" then a.Str? && b.Str? && Contains(a.s, b.s)
    else if !a.Num? || !b.Num? then false
    else if op == ">" then a.n > b.n
    else if op == "<" then a.n < b.n
    else if op == ">=" then a.n >= b.n
    else if op == "<=" then a.n <= b.n
    else false
  }

  /** In Python booleans are numbers. */
  function AsNumber(v: Value): Option<real> {
    match v
    case Num(n) => Some(n)
    case Bool(b) => Some(if b then 1.0 else 0.0)
    case _ => None
  }

  predicate PyEqual(a: Value, b: Value) {
    var x, y := AsNumber(a), AsNumber(b);
    if x.Some? && y.Some? then x == y else a == b
  }

  /** None stands for the KeyError of an operator the table does not hold. */
  function PyCmp(a: Value, op: string, b: Value): Option<bool> {
    if op == "==" then Some(PyEqual(a, b))
    else if op == "!=" then Some(!PyEqual(a, b))
    else if op == "contains" then Some(a.Str? && b.Str? && Contains(a.s, b.s))
    else
      var x, y := AsNumber(a), AsNumber(b);
      if x.None? || y.None? then Some(false)
      else if op in {">", "<", ">=", "<="} then Some(Compare(op, x.value, y.value))
      else None
  }

  function Lookup(ctx: Ctx, field: string): Value {
    if field in ctx then ctx[field] else Null
  }

  predicate RustEval(e: Expr, ctx: Ctx) {
    match e
    case And(l, r) => RustEval(l, ctx) && RustEval(r, ctx)
    case Or(l, r) => RustEval(l, ctx) || RustEval(r, ctx)
    case Not(x) => !RustEval(x, ctx)
    case Cmp(f, o, v) => RustCmp(Lookup(ctx, f), o, v)
  }

  predicate TsEval(e: Expr, ctx: Ctx) {
    match e
    case And(l, r) => TsEval(l, ctx) && TsEval(r, ctx)
    case Or(l, r) => TsEval(l, ctx) || TsEval(r, ctx)
    case Not(x) => !TsEval(x, ctx)
    case Cmp(f, o, v) => TsCmp(Lookup(ctx, f), o, v)
  }

  function PyEval(e: Expr, ctx: Ctx): Option<bool> {
    match e
    case And(l, r) => if PyEval(l, ctx) == Some(true) then PyEval(r, ctx) else PyEval(l, ctx)
    case Or(l, r) => if PyEval(l, ctx) == Some(false) then PyEval(r, ctx) else PyEval(l, ctx)
    case Not(x) => (match PyEval(x, ctx) case None => None case Some(b) => Some(!b))
    case Cmp(f, o, v) => PyCmp(Lookup(ctx, f), o, v)
  }

  lemma LoneOpsCompareFalse(f: string, o: string, v: Value, ctx: Ctx)
    requires o in LONE
    ensures !RustEval(Cmp(f, o, v), ctx) && !TsEval(Cmp(f, o, v), ctx)
  {}

  lemma {:induction false} TsEvalIsRustEval(e: Expr, ctx: Ctx)
    ensures TsEval(e, ctx) == RustEval(e, ctx)
  {
    match e
    case And(l, r) => TsEvalIsRustEval(l, ctx); TsEvalIsRustEval(r, ctx);
    case Or(l, r) => TsEvalIsRustEval(l, ctx); TsEvalIsRustEval(r, ctx);
    case Not(x) => TsEvalIsRustEval(x, ctx);
    case Cmp(_, _, _) =>
  }

  predicate NoBoolLiteral(e: Expr) {
    match e
    case And(l, r) => NoBoolLiteral(l) && NoBoolLiteral(r)
    case Or(l, r) => NoBoolLiteral(l) && NoBoolLiteral(r)
    case Not(x) => NoBoolLiteral(x)
    case Cmp(_, _, v) => !v.Bool?
  }

  /** No span field holds a boolean. */
  ghost predicate NoBoolField(ctx: Ctx) {
    forall f :: f in ctx ==> !ctx[f].Bool?
  }

  lemma {:induction false} PyEvalIsRustEval(e: Expr, ctx: Ctx)
    requires NoBoolLiteral(e) && NoBoolField(ctx) && Ops(e) <= OPERATORS
    ensures PyEval(e, ctx) == Some(RustEval(e, ctx))
  {
    match e
    case And(l, r) => PyEvalIsRustEval(l, ctx); PyEvalIsRustEval(r, ctx);
    case Or(l, r) => PyEvalIsRustEval(l, ctx); PyEvalIsRustEval(r, ctx);
    case Not(x) => PyEvalIsRustEval(x, ctx);
    case Cmp(_, _, _) =>
  }

  /** In contexts of any shape without boolean fields, one comparison means the
      same in Python and Rust exactly when its literal is no boolean or its
      operator is contains. The contexts of spans are of fewer shapes. */
  lemma BoolLiteralsAnywhere(f: string, o: string, v: Value)
    requires o in OPERATORS
    ensures (forall ctx :: NoBoolField(ctx) ==> PyEval(Cmp(f, o, v), ctx) == Some(RustEval(Cmp(f, o, v), ctx)))
            <==> (!v.Bool? || o == "contains")
  {
    var e := Cmp(f, o, v);
    if !v.Bool? || o == "contains" {
      forall ctx | NoBoolField(ctx) ensures PyEval(e, ctx) == Some(RustEval(e, ctx)) {
        if !v.Bool? { PyEvalIsRustEval(e, ctx); }
      }
    } else {
      var n := if o == ">" then 2.0 else if o == "<" then -1.0 else if v.b then 1.0 else 0.0;
      var ctx: Ctx := map[f := Num(n)];
      assert NoBoolField(ctx) && Lookup(ctx, f) == Num(n);
      assert PyEval(e, ctx) != Some(RustEval(e, ctx));
    }
  }

  /** Python accepts the seven operators only. */
  lemma AcceptedOps(s: string, ch: Chars)
    requires ParseSource(Python, s, ch).Ok?
    ensures Ops(ParseSource(Python, s, ch).value) <= OPERATORS
  {
    hide Tokens, ParseTokens, Derives;
    var e := ParseSource(Python, s, ch).value;
    SourcesMeetGrammar(Python, s, ch, e);
    ParserMeetsGrammar(Tokens(Python, s, ch).value, e, OPERATORS);
  }

  /** A source that Python accepts is one expression in all three copies, and
      without boolean literals it holds of the same spans in all of them. */
  lemma ThreeCopiesAgree(s: string, ch: Chars, ctx: Ctx)
    requires ParseSource(Python, s, ch).Ok?
    ensures var e := ParseSource(Python, s, ch).value;
            && ParseSource(Rust, s, ch) == ParseSource(TypeScript, s, ch) == Ok(e)
            && TsEval(e, ctx) == RustEval(e, ctx)
            && (NoBoolLiteral(e) && NoBoolField(ctx) ==> PyEval(e, ctx) == Some(RustEval(e, ctx)))
            && PyEval(e, ctx).Some?
  {
    AcceptanceCompared(s, ch);
    var e := ParseSource(Python, s, ch).value;
    AcceptedOps(s, ch);
    TsEvalIsRustEval(e, ctx);
    if NoBoolLiteral(e) && NoBoolField(ctx) { PyEvalIsRustEval(e, ctx); }
    PyEvalNeverFails(e, ctx);
  }

  lemma {:induction false} PyEvalNeverFails(e: Expr, ctx: Ctx)
    requires Ops(e) <= OPERATORS
    ensures PyEval(e, ctx).Some?
  {
    match e
    case And(l, r) => PyEvalNeverFails(l, ctx); PyEvalNeverFails(r, ctx);
    case Or(l, r) => PyEvalNeverFails(l, ctx); PyEvalNeverFails(r, ctx);
    case Not(x) => PyEvalNeverFails(x, ctx);
    case Cmp(_, _, _) =>
  }
}
