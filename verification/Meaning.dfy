/** What a comparison of a breakpoint says of the field it names, in each of the three copies. */
module Meaning {
  import opened Spans
  import opened Breakpoint
  import opened Dialects
  import opened Lexer

  // ---------- texts ----------

  ghost predicate OccursAt(x: string, y: string, i: int) {
    0 <= i <= |x| - |y| && x[i..i + |y|] == y
  }

  ghost predicate Around(x: string, u: string, y: string, v: string) { x == u + y + v }

  lemma OccursFirst(x: string, y: string)
    ensures OccursAt(x, y, 0) <==> y <= x
    ensures |x| == 0 ==> forall i :: OccursAt(x, y, i) ==> i == 0
  {}

  lemma OccursLater(x: string, y: string, i: int)
    requires |x| > 0 && i > 0
    ensures OccursAt(x, y, i) <==> OccursAt(x[1..], y, i - 1)
  {
    if i <= |x| - |y| { assert x[1..][i - 1..i - 1 + |y|] == x[i..i + |y|]; }
  }

  /** Some stretch of x is y. */
  lemma {:induction false} ContainsAt(x: string, y: string)
    ensures Contains(x, y) <==> exists i :: OccursAt(x, y, i)
  {
    OccursFirst(x, y);
    if |x| > 0 {
      ContainsAt(x[1..], y);
      if i :| OccursAt(x[1..], y, i) { OccursLater(x, y, i + 1); }
      if i :| OccursAt(x, y, i) && i != 0 { OccursLater(x, y, i); }
    }
  }

  lemma ContainsSplits(x: string, y: string)
    ensures Contains(x, y) <==> exists u, v :: Around(x, u, y, v)
  {
    ContainsAt(x, y);
    hide Contains;
    if i :| OccursAt(x, y, i) {
      assert Around(x, x[..i], y, x[i + |y|..]);
    }
    if u, v :| Around(x, u, y, v) {
      assert x[|u|..|u| + |y|] == y;
      assert OccursAt(x, y, |u|);
    }
  }

  /** contains holds exactly of a text with y somewhere in it. */
  lemma ContainsMeans(f: string, y: string, ctx: Ctx)
    ensures var e, holds := Cmp(f, "contains", Str(y)),
                f in ctx && ctx[f].Str? && exists u, v :: Around(ctx[f].s, u, y, v);
            && (RustEval(e, ctx) <==> holds) && (TsEval(e, ctx) <==> holds) && PyEval(e, ctx) == Some(holds)
  {
    if f in ctx && ctx[f].Str? { ContainsSplits(ctx[f].s, y); }
    hide Contains;
  }

  /** contains holds of nothing if its literal is no text. */
  lemma ContainsNeedsText(f: string, v: Value, ctx: Ctx)
    requires !v.Str?
    ensures var e := Cmp(f, "contains", v);
            !RustEval(e, ctx) && !TsEval(e, ctx) && PyEval(e, ctx) == Some(false)
  {}

  // ---------- numbers ----------

  /** The field's number; Python counts true as one and false as zero. */
  ghost predicate IsNumber(d: Dialect, f: string, ctx: Ctx, x: real) {
    && f in ctx
    && (ctx[f] == Num(x) || (d == Python && ctx[f] == Bool(true) && x == 1.0)
        || (d == Python && ctx[f] == Bool(false) && x == 0.0))
  }

  function EvalIn(d: Dialect, e: Expr, ctx: Ctx): Option<bool> {
    match d
    case Rust => Some(RustEval(e, ctx))
    case TypeScript => Some(TsEval(e, ctx))
    case Python => PyEval(e, ctx)
  }

  /** The four orderings hold exactly of a field with a number so ordered. */
  lemma OrderingsMean(d: Dialect, f: string, n: real, ctx: Ctx)
    ensures EvalIn(d, Cmp(f, ">", Num(n)), ctx) == Some(exists x :: IsNumber(d, f, ctx, x) && x > n)
    ensures EvalIn(d, Cmp(f, "<", Num(n)), ctx) == Some(exists x :: IsNumber(d, f, ctx, x) && x < n)
    ensures EvalIn(d, Cmp(f, ">=", Num(n)), ctx) == Some(exists x :: IsNumber(d, f, ctx, x) && x >= n)
    ensures EvalIn(d, Cmp(f, "<=", Num(n)), ctx) == Some(exists x :: IsNumber(d, f, ctx, x) && x <= n)
  {
    if f in ctx && ctx[f].Num? { assert IsNumber(d, f, ctx, ctx[f].n); }
    if f in ctx && ctx[f].Bool? && d == Python { assert IsNumber(d, f, ctx, if ctx[f].b then 1.0 else 0.0); }
  }

  /** They hold of nothing if the literal is a text. */
  lemma OrderingsNeedNumbers(d: Dialect, f: string, o: string, s: string, ctx: Ctx)
    requires o in {">", "<", ">=", "<="}
    ensures EvalIn(d, Cmp(f, o, Str(s)), ctx) == Some(false)
  {}

  // ---------- equality ----------

  /** Equality with a text or a number holds exactly of a field with that value; in
      Python true and false are the numbers one and zero. */
  lemma EqualityMeans(d: Dialect, f: string, v: Value, ctx: Ctx)
    requires v.Str? || v.Num?
    ensures var same := if v.Num? then IsNumber(d, f, ctx, v.n) else f in ctx && ctx[f] == v;
            && EvalIn(d, Cmp(f, "==", v), ctx) == Some(same) && EvalIn(d, Cmp(f, "!=", v), ctx) == Some(!same)
  {}

  /** A field the context does not have is like one without a value: of all
      comparisons only != holds of it. */
  lemma UnknownField(d: Dialect, f: string, o: string, v: Value, ctx: Ctx)
    requires f !in ctx && o in OPERATORS && !v.Null?
    ensures EvalIn(d, Cmp(f, o, v), ctx) == Some(o == "!=")
  {}

  // ---------- connectives ----------

  lemma ConnectivesMean(d: Dialect, l: Expr, r: Expr, ctx: Ctx)
    requires EvalIn(d, l, ctx).Some? && EvalIn(d, r, ctx).Some?
    ensures var a, b := EvalIn(d, l, ctx).value, EvalIn(d, r, ctx).value;
            && EvalIn(d, And(l, r), ctx) == Some(a && b) && EvalIn(d, Or(l, r), ctx) == Some(a || b)
            && EvalIn(d, Not(l), ctx) == Some(!a)
  {}

  // ---------- words ----------

  /** What the lexer makes of a word: the six keywords in any case, else a number if
      the host reads it as one, else a field. */
  lemma WordMeans(w: string, l: string, ch: Chars)
    requires Lowers(w, l)
    ensures l == "and" ==> Classify(w, ch) == TAnd
    ensures l == "or" ==> Classify(w, ch) == TOr
    ensures l == "not" ==> Classify(w, ch) == TNot
    ensures l == "contains" ==> Classify(w, ch) == TOp("contains")
    ensures l == "true" ==> Classify(w, ch) == TBool(true)
    ensures l == "false" ==> Classify(w, ch) == TBool(false)
    ensures l !in {"and", "or", "not", "contains", "true", "false"} ==>
              Classify(w, ch) == match ch.numeral(w) case Some(n) => TNum(n) case None => TIdent(w)
  {
    LowerAt(w, l);
  }
}
