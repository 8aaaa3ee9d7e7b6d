/** The breakpoint predicate language: its grammar and the parser. */
module Breakpoint {

  datatype Value = Str(s: string) | Num(n: real) | Bool(b: bool) | Null

  type Ctx = map<string, Value>

  datatype Tok =
    | TIdent(name: string)
    | TStr(text: string)
    | TNum(num: real)
    | TBool(truth: bool)
    | TOp(op: string)
    | TAnd | TOr | TNot | TLParen | TRParen

  datatype Expr =
    | And(l: Expr, r: Expr)
    | Or(l: Expr, r: Expr)
    | Not(e: Expr)
    | Cmp(field: string, op: string, val: Value)

  datatype Error =
    | UnterminatedString | BadOperator | EmptyPredicate | ExpectedClose
    | ExpectedField | ExpectedOperator | ExpectedValue | TrailingTokens

  datatype Result<+T> = Ok(value: T) | Err(error: Error)

  /** The operators of the stated grammar. */
  const OPERATORS: set<string> := {"==", "!=", ">", "<", ">=", "<=", "contains"}

  function Ops(e: Expr): set<string> {
    match e
    case Or(l, r) => Ops(l) + Ops(r)
    case And(l, r) => Ops(l) + Ops(r)
    case Not(x) => Ops(x)
    case Cmp(_, o, _) => {o}
  }

  // ---------- the grammar ----------
  //
  // DeriveX(t, i, j, e, ops): the tokens t[i..j] derive the expression e from X
  // when OP stands for the operators ops. The repetitions of the grammar
  // comment group to the left.

  ghost predicate DeriveOr(t: seq<Tok>, i: nat, j: nat, e: Expr, ops: set<string>)
    requires i <= j <= |t|
    decreases j - i, 3
  {
    || DeriveAnd(t, i, j, e, ops)
    || (e.Or? && exists k :: i <= k < j && t[k] == TOr
                             && DeriveOr(t, i, k, e.l, ops) && DeriveAnd(t, k + 1, j, e.r, ops))
  }

  ghost predicate DeriveAnd(t: seq<Tok>, i: nat, j: nat, e: Expr, ops: set<string>)
    requires i <= j <= |t|
    decreases j - i, 2
  {
    || DeriveNot(t, i, j, e, ops)
    || (e.And? && exists k :: i <= k < j && t[k] == TAnd
                              && DeriveAnd(t, i, k, e.l, ops) && DeriveNot(t, k + 1, j, e.r, ops))
  }

  ghost predicate DeriveNot(t: seq<Tok>, i: nat, j: nat, e: Expr, ops: set<string>)
    requires i <= j <= |t|
    decreases j - i, 1
  {
    || DerivePrimary(t, i, j, e, ops)
    || (i < j && t[i] == TNot && e.Not? && DeriveNot(t, i + 1, j, e.e, ops))
  }

  ghost predicate DerivePrimary(t: seq<Tok>, i: nat, j: nat, e: Expr, ops: set<string>)
    requires i <= j <= |t|
    decreases j - i, 0
  {
    || (i + 2 <= j && t[i] == TLParen && t[j - 1] == TRParen && DeriveOr(t, i + 1, j - 1, e, ops))
    || DeriveComparison(t, i, j, e, ops)
  }

  ghost predicate DeriveComparison(t: seq<Tok>, i: nat, j: nat, e: Expr, ops: set<string>)
    requires i <= j <= |t|
  {
    && j == i + 3 && e.Cmp? && e.op in ops
    && t[i] == TIdent(e.field) && t[i + 1] == TOp(e.op)
    && ValueOf(t[i + 2]) == Ok(e.val)
  }

  /** The whole token list derives e. */
  ghost predicate Derives(t: seq<Tok>, e: Expr, ops: set<string>) {
    DeriveOr(t, 0, |t|, e, ops)
  }

  function ValueOf(t: Tok): Result<Value> {
    match t
    case TStr(s) => Ok(Str(s))
    case TNum(n) => Ok(Num(n))
    case TBool(b) => Ok(Bool(b))
    case _ => Err(ExpectedValue)
  }

  // ---------- the parser as a function ----------

  datatype Parsed = Parsed(e: Expr, i: nat)

  function ParseOr(t: seq<Tok>, i: nat): (r: Result<Parsed>)
    requires i <= |t|
    ensures r.Ok? ==> i < r.value.i <= |t|
    decreases |t| - i, 4
  {
    match ParseAnd(t, i)
    case Err(x) => Err(x)
    case Ok(p) => OrLoop(t, p)
  }

  function OrLoop(t: seq<Tok>, p: Parsed): (r: Result<Parsed>)
    requires p.i <= |t|
    ensures r.Ok? ==> p.i <= r.value.i <= |t|
    decreases |t| - p.i, 3
  {
    if p.i < |t| && t[p.i] == TOr then
      match ParseAnd(t, p.i + 1)
      case Err(x) => Err(x)
      case Ok(q) => OrLoop(t, Parsed(Or(p.e, q.e), q.i))
    else Ok(p)
  }

  function ParseAnd(t: seq<Tok>, i: nat): (r: Result<Parsed>)
    requires i <= |t|
    ensures r.Ok? ==> i < r.value.i <= |t|
    decreases |t| - i, 3
  {
    match ParseNot(t, i)
    case Err(x) => Err(x)
    case Ok(p) => AndLoop(t, p)
  }

  function AndLoop(t: seq<Tok>, p: Parsed): (r: Result<Parsed>)
    requires p.i <= |t|
    ensures r.Ok? ==> p.i <= r.value.i <= |t|
    decreases |t| - p.i, 2
  {
    if p.i < |t| && t[p.i] == TAnd then
      match ParseNot(t, p.i + 1)
      case Err(x) => Err(x)
      case Ok(q) => AndLoop(t, Parsed(And(p.e, q.e), q.i))
    else Ok(p)
  }

  function ParseNot(t: seq<Tok>, i: nat): (r: Result<Parsed>)
    requires i <= |t|
    ensures r.Ok? ==> i < r.value.i <= |t|
    decreases |t| - i, 1
  {
    if i < |t| && t[i] == TNot then
      match ParseNot(t, i + 1)
      case Err(x) => Err(x)
      case Ok(p) => Ok(Parsed(Not(p.e), p.i))
    else ParsePrimary(t, i)
  }

  function ParsePrimary(t: seq<Tok>, i: nat): (r: Result<Parsed>)
    requires i <= |t|
    ensures r.Ok? ==> i < r.value.i <= |t|
    decreases |t| - i, 0
  {
    if i < |t| && t[i] == TLParen then
      match ParseOr(t, i + 1)
      case Err(x) => Err(x)
      case Ok(p) => if p.i < |t| && t[p.i] == TRParen then Ok(Parsed(p.e, p.i + 1)) else Err(ExpectedClose)
    else if !(i < |t| && t[i].TIdent?) then Err(ExpectedField)
    else if !(i + 1 < |t| && t[i + 1].TOp?) then Err(ExpectedOperator)
    else if i + 2 >= |t| then Err(ExpectedValue)
    else
      match ValueOf(t[i + 2])
      case Err(x) => Err(x)
      case Ok(v) => Ok(Parsed(Cmp(t[i].name, t[i + 1].op, v), i + 3))
  }

  function ParseTokens(t: seq<Tok>): Result<Expr> {
    if |t| == 0 then Err(EmptyPredicate)
    else
      match ParseOr(t, 0)
      case Err(x) => Err(x)
      case Ok(p) => if p.i == |t| then Ok(p.e) else Err(TrailingTokens)
  }

  // ---------- the parser with its cursor ----------

  class Parser {
    const t: seq<Tok>
    var i: nat

    constructor (t: seq<Tok>)
      ensures this.t == t && i == 0
    {
      this.t := t;
      i := 0;
    }

    function Peek(): Result<Tok>
      reads this
    {
      if i < |t| then Ok(t[i]) else Err(TrailingTokens)
    }

    // The cursor moves past the end too, as it does in all three copies.
    method Next() returns (tok: Result<Tok>)
      modifies this`i
      ensures tok == old(Peek()) && i == old(i) + 1
    {
      tok := Peek();
      i := i + 1;
    }

    method Or() returns (r: Result<Expr>)
      requires i <= |t|
      modifies this`i
      ensures match ParseOr(t, old(i))
              case Err(x) => r == Err(x)
              case Ok(p) => r == Ok(p.e) && i == p.i
      decreases |t| - i, 4
    {
      var first := And();
      if first.Err? { return first; }
      var e := first.value;
      while Peek() == Ok(TOr)
        invariant old(i) < i <= |t|
        invariant OrLoop(t, Parsed(e, i)) == ParseOr(t, old(i))
        decreases |t| - i
      {
        var _ := Next();
        var more := And();
        if more.Err? { return more; }
        e := Expr.Or(e, more.value);
      }
      r := Ok(e);
    }

    method And() returns (r: Result<Expr>)
      requires i <= |t|
      modifies this`i
      ensures match ParseAnd(t, old(i))
              case Err(x) => r == Err(x)
              case Ok(p) => r == Ok(p.e) && i == p.i
      decreases |t| - i, 3
    {
      var first := Not();
      if first.Err? { return first; }
      var e := first.value;
      while Peek() == Ok(TAnd)
        invariant old(i) < i <= |t|
        invariant AndLoop(t, Parsed(e, i)) == ParseAnd(t, old(i))
        decreases |t| - i
      {
        var _ := Next();
        var more := Not();
        if more.Err? { return more; }
        e := Expr.And(e, more.value);
      }
      r := Ok(e);
    }

    method Not() returns (r: Result<Expr>)
      requires i <= |t|
      modifies this`i
      ensures match ParseNot(t, old(i))
              case Err(x) => r == Err(x)
              case Ok(p) => r == Ok(p.e) && i == p.i
      decreases |t| - i, 2
    {
      if Peek() == Ok(TNot) {
        var _ := Next();
        r := Not();
        if r.Ok? { r := Ok(Expr.Not(r.value)); }
      } else {
        r := Primary();
      }
    }

    method Primary() returns (r: Result<Expr>)
      requires i <= |t|
      modifies this`i
      ensures match ParsePrimary(t, old(i))
              case Err(x) => r == Err(x)
              case Ok(p) => r == Ok(p.e) && i == p.i
      decreases |t| - i, 1
    {
      if Peek() == Ok(TLParen) {
        var _ := Next();
        r := Or();
        if r.Ok? {
          var close := Next();
          if close != Ok(TRParen) { r := Err(ExpectedClose); }
        }
        return;
      }
      var f := Next();
      if !(f.Ok? && f.value.TIdent?) { return Err(ExpectedField); }
      var o := Next();
      if !(o.Ok? && o.value.TOp?) { return Err(ExpectedOperator); }
      var v := Next();
      if v.Err? { return Err(ExpectedValue); }
      match ValueOf(v.value) {
        case Err(x) => r := Err(x);
        case Ok(val) => r := Ok(Cmp(f.value.name, o.value.op, val));
      }
    }
  }

  method Parse(t: seq<Tok>) returns (r: Result<Expr>)
    ensures r == ParseTokens(t)
  {
    if |t| == 0 { return Err(EmptyPredicate); }
    var p := new Parser(t);
    r := p.Or();
    if r.Ok? && p.i != |p.t| { r := Err(TrailingTokens); }
  }

  // ---------- soundness ----------

  ghost predicate OpsWithin(t: seq<Tok>, ops: set<string>) {
    forall k :: 0 <= k < |t| && t[k].TOp? ==> t[k].op in ops
  }

  lemma {:induction false} OrSound(t: seq<Tok>, i: nat, ops: set<string>)
    requires i <= |t| && ParseOr(t, i).Ok? && OpsWithin(t, ops)
    ensures var p := ParseOr(t, i).value; DeriveOr(t, i, p.i, p.e, ops)
    decreases |t| - i, 4
  {
    AndSound(t, i, ops);
    OrLoopSound(t, i, ParseAnd(t, i).value, ops);
  }

  lemma {:induction false} OrLoopSound(t: seq<Tok>, i: nat, p: Parsed, ops: set<string>)
    requires i < p.i <= |t| && DeriveOr(t, i, p.i, p.e, ops) && OrLoop(t, p).Ok? && OpsWithin(t, ops)
    ensures var q := OrLoop(t, p).value; DeriveOr(t, i, q.i, q.e, ops)
    decreases |t| - p.i, 3
  {
    if p.i < |t| && t[p.i] == TOr {
      AndSound(t, p.i + 1, ops);
      var q := ParseAnd(t, p.i + 1).value;
      OrLoopSound(t, i, Parsed(Or(p.e, q.e), q.i), ops);
    }
  }

  lemma {:induction false} AndSound(t: seq<Tok>, i: nat, ops: set<string>)
    requires i <= |t| && ParseAnd(t, i).Ok? && OpsWithin(t, ops)
    ensures var p := ParseAnd(t, i).value; DeriveAnd(t, i, p.i, p.e, ops)
    decreases |t| - i, 3
  {
    NotSound(t, i, ops);
    AndLoopSound(t, i, ParseNot(t, i).value, ops);
  }

  lemma {:induction false} AndLoopSound(t: seq<Tok>, i: nat, p: Parsed, ops: set<string>)
    requires i < p.i <= |t| && DeriveAnd(t, i, p.i, p.e, ops) && AndLoop(t, p).Ok? && OpsWithin(t, ops)
    ensures var q := AndLoop(t, p).value; DeriveAnd(t, i, q.i, q.e, ops)
    decreases |t| - p.i, 2
  {
    if p.i < |t| && t[p.i] == TAnd {
      NotSound(t, p.i + 1, ops);
      var q := ParseNot(t, p.i + 1).value;
      AndLoopSound(t, i, Parsed(And(p.e, q.e), q.i), ops);
    }
  }

  lemma {:induction false} NotSound(t: seq<Tok>, i: nat, ops: set<string>)
    requires i <= |t| && ParseNot(t, i).Ok? && OpsWithin(t, ops)
    ensures var p := ParseNot(t, i).value; DeriveNot(t, i, p.i, p.e, ops)
    decreases |t| - i, 1
  {
    if i < |t| && t[i] == TNot {
      NotSound(t, i + 1, ops);
    } else {
      PrimarySound(t, i, ops);
    }
  }

  lemma {:induction false} PrimarySound(t: seq<Tok>, i: nat, ops: set<string>)
    requires i <= |t| && ParsePrimary(t, i).Ok? && OpsWithin(t, ops)
    ensures var p := ParsePrimary(t, i).value; DerivePrimary(t, i, p.i, p.e, ops)
    decreases |t| - i, 0
  {
    if i < |t| && t[i] == TLParen {
      OrSound(t, i + 1, ops);
    }
  }

  // ---------- completeness ----------
  //
  // A derivation of t[i..j] steers the parser from i into the loop state that
  // has consumed t[i..j] and built e, whatever follows.

  lemma {:induction false} OrComplete(t: seq<Tok>, i: nat, j: nat, e: Expr, ops: set<string>)
    requires i <= j <= |t| && DeriveOr(t, i, j, e, ops)
    requires j == |t| || t[j] != TAnd
    ensures ParseOr(t, i) == OrLoop(t, Parsed(e, j))
    decreases j - i, 3
  {
    if DeriveAnd(t, i, j, e, ops) {
      AndComplete(t, i, j, e, ops);
    } else {
      var k :| i <= k < j && t[k] == TOr && DeriveOr(t, i, k, e.l, ops) && DeriveAnd(t, k + 1, j, e.r, ops);
      OrComplete(t, i, k, e.l, ops);
      AndComplete(t, k + 1, j, e.r, ops);
    }
  }

  lemma {:induction false} AndComplete(t: seq<Tok>, i: nat, j: nat, e: Expr, ops: set<string>)
    requires i <= j <= |t| && DeriveAnd(t, i, j, e, ops)
    ensures ParseAnd(t, i) == AndLoop(t, Parsed(e, j))
    decreases j - i, 2
  {
    if DeriveNot(t, i, j, e, ops) {
      NotComplete(t, i, j, e, ops);
    } else {
      var k :| i <= k < j && t[k] == TAnd && DeriveAnd(t, i, k, e.l, ops) && DeriveNot(t, k + 1, j, e.r, ops);
      AndComplete(t, i, k, e.l, ops);
      NotComplete(t, k + 1, j, e.r, ops);
    }
  }

  lemma {:induction false} NotComplete(t: seq<Tok>, i: nat, j: nat, e: Expr, ops: set<string>)
    requires i <= j <= |t| && DeriveNot(t, i, j, e, ops)
    ensures ParseNot(t, i) == Ok(Parsed(e, j))
    decreases j - i, 1
  {
    if DerivePrimary(t, i, j, e, ops) {
      PrimaryComplete(t, i, j, e, ops);
    } else {
      NotComplete(t, i + 1, j, e.e, ops);
    }
  }

  lemma {:induction false} PrimaryComplete(t: seq<Tok>, i: nat, j: nat, e: Expr, ops: set<string>)
    requires i <= j <= |t| && DerivePrimary(t, i, j, e, ops)
    ensures ParsePrimary(t, i) == Ok(Parsed(e, j))
    ensures ParseNot(t, i) == Ok(Parsed(e, j))
    decreases j - i, 0
  {
    if !DeriveComparison(t, i, j, e, ops) {
      OrComplete(t, i + 1, j - 1, e, ops);
    }
  }

  // ---------- operators ----------

  ghost predicate OpsBetween(t: seq<Tok>, i: nat, j: nat, ops: set<string>)
    requires i <= j <= |t|
  {
    forall o :: o in ops <==> exists k :: i <= k < j && t[k] == TOp(o)
  }

  lemma OpsJoin(t: seq<Tok>, i: nat, k: nat, j: nat, a: set<string>, b: set<string>)
    requires i <= k < j <= |t| && !t[k].TOp?
    requires OpsBetween(t, i, k, a) && OpsBetween(t, k + 1, j, b)
    ensures OpsBetween(t, i, j, a + b)
  {
    forall o ensures o in a + b <==> exists m :: i <= m < j && t[m] == TOp(o) {
      if m :| i <= m < j && t[m] == TOp(o) {
        assert i <= m < k || k + 1 <= m < j;
      }
    }
  }

  /** The operators of an expression are those of the tokens that derive it. */
  lemma {:induction false} OpsOfOr(t: seq<Tok>, i: nat, j: nat, e: Expr, ops: set<string>)
    requires i <= j <= |t| && DeriveOr(t, i, j, e, ops)
    ensures OpsBetween(t, i, j, Ops(e)) && Ops(e) <= ops
    decreases j - i, 3
  {
    if DeriveAnd(t, i, j, e, ops) {
      OpsOfAnd(t, i, j, e, ops);
    } else {
      var k :| i <= k < j && t[k] == TOr && DeriveOr(t, i, k, e.l, ops) && DeriveAnd(t, k + 1, j, e.r, ops);
      OpsOfOr(t, i, k, e.l, ops);
      OpsOfAnd(t, k + 1, j, e.r, ops);
      OpsJoin(t, i, k, j, Ops(e.l), Ops(e.r));
    }
  }

  lemma {:induction false} OpsOfAnd(t: seq<Tok>, i: nat, j: nat, e: Expr, ops: set<string>)
    requires i <= j <= |t| && DeriveAnd(t, i, j, e, ops)
    ensures OpsBetween(t, i, j, Ops(e)) && Ops(e) <= ops
    decreases j - i, 2
  {
    if DeriveNot(t, i, j, e, ops) {
      OpsOfNot(t, i, j, e, ops);
    } else {
      var k :| i <= k < j && t[k] == TAnd && DeriveAnd(t, i, k, e.l, ops) && DeriveNot(t, k + 1, j, e.r, ops);
      OpsOfAnd(t, i, k, e.l, ops);
      OpsOfNot(t, k + 1, j, e.r, ops);
      OpsJoin(t, i, k, j, Ops(e.l), Ops(e.r));
    }
  }

  lemma {:induction false} OpsOfNot(t: seq<Tok>, i: nat, j: nat, e: Expr, ops: set<string>)
    requires i <= j <= |t| && DeriveNot(t, i, j, e, ops)
    ensures OpsBetween(t, i, j, Ops(e)) && Ops(e) <= ops
    decreases j - i, 1
  {
    if DerivePrimary(t, i, j, e, ops) {
      OpsOfPrimary(t, i, j, e, ops);
    } else {
      OpsOfNot(t, i + 1, j, e.e, ops);
      assert OpsBetween(t, i, i, {});
      OpsJoin(t, i, i, j, {}, Ops(e.e));
      assert {} + Ops(e.e) == Ops(e);
    }
  }

  lemma {:induction false} OpsOfPrimary(t: seq<Tok>, i: nat, j: nat, e: Expr, ops: set<string>)
    requires i <= j <= |t| && DerivePrimary(t, i, j, e, ops)
    ensures OpsBetween(t, i, j, Ops(e)) && Ops(e) <= ops
    decreases j - i, 0
  {
    if DeriveComparison(t, i, j, e, ops) {
      assert t[i + 1] == TOp(e.op);
      assert !t[i].TOp? && !t[i + 2].TOp?;
    } else {
      OpsOfOr(t, i + 1, j - 1, e, ops);
      assert OpsBetween(t, i, i, {}) && OpsBetween(t, j, j, {});
      OpsJoin(t, i, i, j - 1, {}, Ops(e));
      OpsJoin(t, i, j - 1, j, {} + Ops(e), {});
      assert ({} + Ops(e)) + {} == Ops(e);
    }
  }

  ghost function TokenOps(t: seq<Tok>): set<string> {
    set k | 0 <= k < |t| && t[k].TOp? :: t[k].op
  }

  /** The parser returns e, and e has none but these operators, exactly when the
      whole token list derives e with them. */
  lemma ParserMeetsGrammar(t: seq<Tok>, e: Expr, ops: set<string>)
    ensures ParseTokens(t) == Ok(e) && Ops(e) <= ops <==> Derives(t, e, ops)
  {
    if ParseTokens(t) == Ok(e) && Ops(e) <= ops {
      OrSound(t, 0, TokenOps(t));
      OpsOfOr(t, 0, |t|, e, TokenOps(t));
      OrSound(t, 0, ops);
    }
    if Derives(t, e, ops) {
      OrComplete(t, 0, |t|, e, ops);
      OpsOfOr(t, 0, |t|, e, ops);
    }
  }

  /** No token list has two derivations. */
  lemma GrammarUnambiguous(t: seq<Tok>, e1: Expr, e2: Expr, ops: set<string>)
    requires Derives(t, e1, ops) && Derives(t, e2, ops)
    ensures e1 == e2
  {
    ParserMeetsGrammar(t, e1, ops);
    ParserMeetsGrammar(t, e2, ops);
  }
}
