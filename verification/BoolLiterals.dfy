/** Comparisons with true and false, on the contexts that ingestion builds from spans. */
module BoolLiterals {
  import opened Spans
  import opened Breakpoint
  import opened Dialects
  import Ingest

  /** The fields that can be numbers. */
  const NUMERIC: set<string> := {"duration_ms", "tokens_in", "tokens_out", "cost_usd"}

  /** The literal is no boolean, or its being one makes no difference: no duration
      is less than zero. */
  predicate HarmlessLiteral(f: string, o: string, v: Value) {
    !v.Bool? || o == "contains" || f !in NUMERIC || (f == "duration_ms" && o == "<" && v == Bool(false))
  }

  predicate Harmless(e: Expr) {
    match e
    case And(l, r) => Harmless(l) && Harmless(r)
    case Or(l, r) => Harmless(l) && Harmless(r)
    case Not(x) => Harmless(x)
    case Cmp(f, o, v) => HarmlessLiteral(f, o, v)
  }

  ghost predicate AgreesOn(f: string, o: string, v: Value, ctx: Ctx) {
    PyEval(Cmp(f, o, v), ctx) == Some(RustEval(Cmp(f, o, v), ctx))
  }

  lemma NoFlags(h: Ingest.Host, sp: Ingest.OtelSpan)
    ensures NoBoolField(Ingest.CtxOf(h, sp))
  {
    hide Ingest.MapSpan, Ingest.ToolOf;
  }

  /** What the fields of a context can be. */
  lemma FieldsOf(h: Ingest.Host, sp: Ingest.OtelSpan, f: string)
    ensures var x := Lookup(Ingest.CtxOf(h, sp), f);
            && (f !in NUMERIC ==> !x.Num?) && (f == "duration_ms" && x.Num? ==> x.n >= 0.0)
  {
    hide Ingest.GetInt, Ingest.GetReal, Ingest.GetBool, Ingest.InferKind, Ingest.StatusOf, Ingest.ToolOf;
  }

  lemma HarmlessAgrees(h: Ingest.Host, sp: Ingest.OtelSpan, f: string, o: string, v: Value)
    requires o in OPERATORS && HarmlessLiteral(f, o, v)
    ensures AgreesOn(f, o, v, Ingest.CtxOf(h, sp))
  {
    NoFlags(h, sp);
    hide Ingest.CtxOf;
    if !v.Bool? || o == "contains" { BoolLiteralsAnywhere(f, o, v); } else { FieldsOf(h, sp, f); }
  }

  /** A span whose numeric fields are all n: a duration of n milliseconds, n
      tokens each way and a cost of n. */
  function NumberSpan(n: int): Ingest.OtelSpan {
    Ingest.OtelSpan(
      0, 0, None, "", 1, if n >= 0 then 1 + n * 1_000_000 else 1, None,
      map[K("gen_ai.usage.input_tokens") := I(n), K("gen_ai.usage.output_tokens") := I(n),
          K("stethoscope.cost_usd") := F(n as real)])
  }

  lemma NumberFields(h: Ingest.Host, n: int, f: string)
    requires f in NUMERIC && (f == "duration_ms" ==> n >= 0)
    ensures Lookup(Ingest.CtxOf(h, NumberSpan(n)), f) == Num(n as real)
  {
    hide Ingest.InferKind, Ingest.StatusOf, Ingest.ToolOf;
  }

  /** A number on which the copies part. */
  function Parting(f: string, o: string, b: bool): int {
    if o == ">" then 2 else if o == "<" then (if f == "duration_ms" then 0 else -1) else if b then 1 else 0
  }

  lemma PartsThere(h: Ingest.Host, f: string, o: string, v: Value)
    requires o in OPERATORS && !HarmlessLiteral(f, o, v)
    ensures !AgreesOn(f, o, v, Ingest.CtxOf(h, NumberSpan(Parting(f, o, v.b))))
  {
    hide Ingest.CtxOf;
    NumberFields(h, Parting(f, o, v.b), f);
  }

  /** One comparison means the same in Python and Rust on every span exactly when
      its literal is no boolean, its operator is contains, its field is never a
      number, or it is duration_ms < false. */
  lemma BoolLiteralsDisagree(h: Ingest.Host, f: string, o: string, v: Value)
    requires o in OPERATORS
    ensures (forall sp :: AgreesOn(f, o, v, Ingest.CtxOf(h, sp))) <==>
              !v.Bool? || o == "contains" || f !in NUMERIC || (f == "duration_ms" && o == "<" && v == Bool(false))
  {
    hide AgreesOn, Ingest.CtxOf, NUMERIC;
    if HarmlessLiteral(f, o, v) {
      forall sp ensures AgreesOn(f, o, v, Ingest.CtxOf(h, sp)) {
        HarmlessAgrees(h, sp, f, o, v);
      }
    } else {
      PartsThere(h, f, o, v);
    }
  }

  /** A predicate all of whose comparisons are harmless holds of the same spans
      in every copy. */
  lemma {:induction false} HarmlessEvalAgrees(e: Expr, h: Ingest.Host, sp: Ingest.OtelSpan)
    requires Harmless(e) && Ops(e) <= OPERATORS
    ensures var ctx := Ingest.CtxOf(h, sp);
            && PyEval(e, ctx) == Some(RustEval(e, ctx)) && TsEval(e, ctx) == RustEval(e, ctx)
  {
    hide Ingest.CtxOf, HarmlessLiteral;
    TsEvalIsRustEval(e, Ingest.CtxOf(h, sp));
    match e
    case And(l, r) => HarmlessEvalAgrees(l, h, sp); HarmlessEvalAgrees(r, h, sp);
    case Or(l, r) => HarmlessEvalAgrees(l, h, sp); HarmlessEvalAgrees(r, h, sp);
    case Not(x) => HarmlessEvalAgrees(x, h, sp);
    case Cmp(f, o, v) => HarmlessAgrees(h, sp, f, o, v);
  }
}
