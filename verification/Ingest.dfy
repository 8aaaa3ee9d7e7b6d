/** Mapping an OTLP export request into the writes it makes to the store, in order. */
module Ingest {
  import opened Spans
  import opened Db
  import BP = Breakpoint
  import Lexer
  import Dialects

  type AttrMap = map<AttrKey, AttrVal>

  datatype OtelSpan = OtelSpan(
    trace: TraceId, id: SpanId, parent: Option<SpanId>, name: string, start: Time, end: Time,
    status: Option<(int, string)>, attrs: AttrMap)

  datatype Resource = Resource(attrs: AttrMap, scopes: seq<seq<OtelSpan>>)

  type Request = seq<Resource>

  /** What the host language reads out of text. */
  datatype Host = Host(chars: Lexer.Chars, parseInt: string -> Option<int>)

  /** The fixed surroundings of one batch: compiled breakpoints and the clock. */
  datatype Env = Env(host: Host, bps: seq<(Ulid, BP.Expr)>, now: Time)

  // ---------- attributes ----------

  function GetStr(a: AttrMap, k: AttrKey): Option<string> {
    if k in a && a[k].S? then Some(a[k].s) else None
  }

  function GetInt(h: Host, a: AttrMap, k: AttrKey): Option<int> {
    if k !in a then None
    else match a[k]
      case I(i) => Some(i)
      case S(s) => h.parseInt(s)
      case _ => None
  }

  function GetReal(h: Host, a: AttrMap, k: AttrKey): Option<real> {
    if k !in a then None
    else match a[k]
      case F(f) => Some(f)
      case I(i) => Some(i as real)
      case S(s) => h.chars.numeral(s)
      case _ => None
  }

  function GetBool(a: AttrMap, k: AttrKey): Option<bool> {
    if k in a && a[k].B? then Some(a[k].b) else None
  }

  /** The first of two texts that is there and not empty. */
  function OrElse(a: Option<string>, b: Option<string>): Option<string> {
    if Truthy(a) then a else b
  }

  predicate Truthy(s: Option<string>) { s.Some? && s.value != "" }

  function NonZero(t: Time): Option<Time> { if t == 0 then None else Some(t) }

  // ---------- one span ----------

  function InferKind(name: string, a: AttrMap): string {
    var kind := GetStr(a, K("stethoscope.kind"));
    if Truthy(kind) then kind.value
    else if Truthy(GetStr(a, K("gen_ai.request.model"))) then "llm_call"
    else if Truthy(GetStr(a, K("gen_ai.tool.name"))) || "tool:" <= name then "tool_call"
    else "node_execution"
  }

  function StatusOf(sp: OtelSpan): (string, Option<string>) {
    if sp.status.Some? && sp.status.value.0 == 2 then
      ("error", if sp.status.value.1 == "" then None else Some(sp.status.value.1))
    else ("ok", None)
  }

  function MapSpan(h: Host, sp: OtelSpan): Span {
    var a := sp.attrs;
    var redacted := GetBool(a, K("stethoscope.redacted"));
    Span(
      sp.id, sp.trace, sp.parent, InferKind(sp.name, a), sp.name, NonZero(sp.start), NonZero(sp.end),
      if sp.start != 0 && sp.end != 0 && sp.end >= sp.start then Some((sp.end - sp.start) / 1_000_000) else None,
      StatusOf(sp).0, StatusOf(sp).1,
      GetReal(h, a, K("stethoscope.cost_usd")),
      GetInt(h, a, K("gen_ai.usage.input_tokens")),
      GetInt(h, a, K("gen_ai.usage.output_tokens")),
      GetInt(h, a, K("gen_ai.usage.cached_tokens")),
      GetStr(a, K("gen_ai.request.model")),
      GetStr(a, K("gen_ai.system")),
      GetReal(h, a, K("gen_ai.request.temperature")),
      GetStr(a, K("stethoscope.prompt_hash")),
      GetBool(a, K("stethoscope.cacheable")),
      redacted.Some? && redacted.value,
      Obj(a))
  }

  /** The indexed keys of a prefix that are still to come. */
  function KeysFrom(a: AttrMap, prefix: string, i: nat): set<AttrKey> {
    set k | k in a && k.At? && k.prefix == prefix && k.i >= i
  }

  /** Messages prefix.i, prefix.i+1, ... up to the first one without content. */
  function MessagesFrom(a: AttrMap, span: SpanId, prefix: string, role: string, i: nat, at: nat, next: Ulid): seq<Message>
    decreases |KeysFrom(a, prefix, i)|
  {
    var content := GetStr(a, At(prefix, i, "content"));
    if content.None? then []
    else
      var said := GetStr(a, At(prefix, i, "role"));
      var m := Message(next, span, at, if Truthy(said) then said.value else role, content, None,
                       GetStr(a, At(prefix, i, "tool_call_id")));
      assert KeysFrom(a, prefix, i + 1) < KeysFrom(a, prefix, i) by { KeysShrink(a, prefix, i); }
      SubsetSmaller(KeysFrom(a, prefix, i + 1), KeysFrom(a, prefix, i));
      [m] + MessagesFrom(a, span, prefix, role, i + 1, at + 1, next + 1)
  }

  lemma KeysShrink(a: AttrMap, prefix: string, i: nat)
    requires At(prefix, i, "content") in a
    ensures KeysFrom(a, prefix, i + 1) < KeysFrom(a, prefix, i)
  {
    assert At(prefix, i, "content") in KeysFrom(a, prefix, i);
    assert At(prefix, i, "content") !in KeysFrom(a, prefix, i + 1);
  }

  lemma {:induction false} SubsetSmaller<T>(x: set<T>, y: set<T>)
    requires x < y
    ensures |x| < |y|
  {
    var e :| e in y && e !in x;
    if x == {} {
      assert |y| > 0;
    } else {
      var f :| f in x;
      SubsetSmaller(x - {f}, y - {f});
    }
  }

  function MessagesOf(a: AttrMap, span: SpanId, next: Ulid): seq<Message> {
    var prompts := MessagesFrom(a, span, "gen_ai.prompt", "user", 0, 0, next);
    prompts + MessagesFrom(a, span, "gen_ai.completion", "assistant", 0, |prompts|, next + |prompts|)
  }

  function ToolCallOf(a: AttrMap, span: SpanId): Option<ToolCall> {
    var name := OrElse(GetStr(a, K("gen_ai.tool.name")), GetStr(a, K("stethoscope.tool_name")));
    if !Truthy(name) then None
    else Some(ToolCall(span, name.value, GetStr(a, K("stethoscope.tool.arguments")), None,
                       GetStr(a, K("stethoscope.tool.result")), None, GetStr(a, K("stethoscope.tool.error"))))
  }

  /** The tool call stored for a span: only spans of that kind get one. */
  function ToolOf(sp: OtelSpan): Option<ToolCall> {
    if InferKind(sp.name, sp.attrs) == "tool_call" then ToolCallOf(sp.attrs, sp.id) else None
  }

  function CacheOf(h: Host, sp: OtelSpan, now: Time): Option<CacheRow> {
    var m := MapSpan(h, sp);
    var resp := GetStr(sp.attrs, At("gen_ai.completion", 0, "content"));
    if m.kind == "llm_call" && Truthy(m.promptHash) && resp.Some? then
      Some(CacheRow(m.promptHash.value, m.model, resp.value, m.tokensIn, m.tokensOut,
                    if m.start.Some? then m.start.value else now))
    else None
  }

  function StrVal(s: Option<string>): BP.Value {
    match s case None => BP.Null case Some(t) => BP.Str(t)
  }

  function IntVal(i: Option<int>): BP.Value {
    match i case None => BP.Null case Some(n) => BP.Num(n as real)
  }

  function RealVal(r: Option<real>): BP.Value {
    match r case None => BP.Null case Some(n) => BP.Num(n)
  }

  function BpCtx(m: Span, tool: Option<string>): BP.Ctx {
    map["kind" := BP.Str(m.kind), "name" := BP.Str(m.name), "status" := BP.Str(m.status),
        "duration_ms" := IntVal(m.duration), "model" := StrVal(m.model), "provider" := StrVal(m.provider),
        "tokens_in" := IntVal(m.tokensIn), "tokens_out" := IntVal(m.tokensOut), "cost_usd" := RealVal(m.cost),
        "error_message" := StrVal(m.error), "tool_name" := StrVal(tool)]
  }

  function CtxOf(h: Host, sp: OtelSpan): BP.Ctx {
    var tool := ToolOf(sp);
    BpCtx(MapSpan(h, sp), if tool.Some? then Some(tool.value.tool) else None)
  }

  predicate Matches(e: BP.Expr, h: Host, sp: OtelSpan) {
    Dialects.PyEval(e, CtxOf(h, sp)) == Some(true)
  }

  function MessageWrites(ms: seq<Message>): seq<Write> {
    if |ms| == 0 then [] else [PutMessage(ms[0])] + MessageWrites(ms[1..])
  }

  function HitWrites(env: Env, bps: seq<(Ulid, BP.Expr)>, sp: OtelSpan): seq<Write> {
    if |bps| == 0 then []
    else if Matches(bps[0].1, env.host, sp) then
      [Hit(bps[0].0, sp.id, sp.trace, env.now)] + HitWrites(env, bps[1..], sp)
    else HitWrites(env, bps[1..], sp)
  }

  function ToolWrites(env: Env, sp: OtelSpan): seq<Write> {
    match ToolOf(sp) case None => [] case Some(c) => [PutTool(c)]
  }

  function CacheWrites(env: Env, sp: OtelSpan): seq<Write> {
    match CacheOf(env.host, sp, env.now) case None => [] case Some(c) => [PutCache(c)]
  }

  function SpanWrites(env: Env, sp: OtelSpan, next: Ulid): seq<Write> {
    [PutSpan(MapSpan(env.host, sp))]
    + MessageWrites(MessagesOf(sp.attrs, sp.id, next))
    + ToolWrites(env, sp)
    + CacheWrites(env, sp)
    + HitWrites(env, env.bps, sp)
  }

  function SpansWrites(env: Env, spans: seq<OtelSpan>, next: Ulid): seq<Write> {
    if |spans| == 0 then []
    else SpanWrites(env, spans[0], next)
         + SpansWrites(env, spans[1..], next + |MessagesOf(spans[0].attrs, spans[0].id, next)|)
  }

  /** The id source after the messages of these spans. */
  function NextAfter(spans: seq<OtelSpan>, next: Ulid): Ulid {
    if |spans| == 0 then next
    else NextAfter(spans[1..], next + |MessagesOf(spans[0].attrs, spans[0].id, next)|)
  }

  // ---------- one trace ----------

  datatype Totals = Totals(
    start: Option<Time>, end: Time, anyError: bool, cost: real, tokensIn: int, tokensOut: int,
    root: Option<string>, parentTrace: Option<string>, branchPoint: Option<string>)

  function OrZero(i: Option<int>): int { match i case None => 0 case Some(n) => n }

  function RealOrZero(r: Option<real>): real { match r case None => 0.0 case Some(n) => n }

  function AddTotals(t: Totals, h: Host, sp: OtelSpan): Totals {
    var m := MapSpan(h, sp);
    Totals(
      if sp.start == 0 then t.start
      else if t.start.None? || sp.start < t.start.value then Some(sp.start) else t.start,
      if sp.end > t.end then sp.end else t.end,
      t.anyError || m.status == "error",
      t.cost + RealOrZero(m.cost),
      t.tokensIn + OrZero(m.tokensIn),
      t.tokensOut + OrZero(m.tokensOut),
      if sp.parent.None? then Some(sp.name) else t.root,
      OrElse(GetStr(sp.attrs, K("stethoscope.parent_trace_id")), t.parentTrace),
      OrElse(GetStr(sp.attrs, K("stethoscope.branch_point_span_id")), t.branchPoint))
  }

  /** The accumulators after the first n spans of a group. */
  function TotalsOf(h: Host, spans: seq<OtelSpan>, n: nat): Totals
    requires n <= |spans|
  {
    if n == 0 then Totals(None, 0, false, 0.0, 0, 0, None, None, None)
    else AddTotals(TotalsOf(h, spans, n - 1), h, spans[n - 1])
  }

  /** What a resource gives to all its traces. */
  datatype Origin = Origin(project: Ulid, framework: Option<string>, version: Option<string>)

  datatype Bucket = Bucket(trace: TraceId, spans: seq<OtelSpan>)

  function TraceRow(env: Env, o: Origin, g: Bucket): Trace {
    var t := TotalsOf(env.host, g.spans, |g.spans|);
    Trace(
      g.trace, o.project, t.parentTrace, t.branchPoint, t.root,
      if t.anyError then "failed" else "completed",
      if t.start.Some? then t.start.value else env.now,
      NonZero(t.end),
      if t.cost > 0.0 then Some(t.cost) else None,
      if t.tokensIn > 0 then Some(t.tokensIn) else None,
      if t.tokensOut > 0 then Some(t.tokensOut) else None,
      o.framework, o.version)
  }

  function GroupWrites(env: Env, o: Origin, g: Bucket, next: Ulid): seq<Write> {
    [PutTrace(TraceRow(env, o, g))] + SpansWrites(env, g.spans, next)
  }

  function GroupsWrites(env: Env, o: Origin, gs: seq<Bucket>, next: Ulid): seq<Write> {
    if |gs| == 0 then []
    else GroupWrites(env, o, gs[0], next) + GroupsWrites(env, o, gs[1..], NextAfter(gs[0].spans, next))
  }

  function NextAfterGroups(gs: seq<Bucket>, next: Ulid): Ulid {
    if |gs| == 0 then next else NextAfterGroups(gs[1..], NextAfter(gs[0].spans, next))
  }

  // ---------- grouping ----------

  function AddSpan(gs: seq<Bucket>, sp: OtelSpan): seq<Bucket> {
    if |gs| == 0 then [Bucket(sp.trace, [sp])]
    else if gs[0].trace == sp.trace then [Bucket(sp.trace, gs[0].spans + [sp])] + gs[1..]
    else [gs[0]] + AddSpan(gs[1..], sp)
  }

  /** The groups after the first n spans, in order of first appearance. */
  function Grouped(spans: seq<OtelSpan>, n: nat): seq<Bucket>
    requires n <= |spans|
  {
    if n == 0 then [] else AddSpan(Grouped(spans, n - 1), spans[n - 1])
  }

  function Flatten(scopes: seq<seq<OtelSpan>>): seq<OtelSpan> {
    if |scopes| == 0 then [] else scopes[0] + Flatten(scopes[1..])
  }

  function Buckets(r: Resource): seq<Bucket> {
    var all := Flatten(r.scopes);
    Grouped(all, |all|)
  }

  // ---------- one request ----------

  function ProjectName(a: AttrMap): string {
    var name := OrElse(GetStr(a, K("stethoscope.project")), GetStr(a, K("service.name")));
    if Truthy(name) then name.value else "default"
  }

  function OriginOf(r: Resource, project: Ulid): Origin {
    Origin(project, GetStr(r.attrs, K("stethoscope.framework")), GetStr(r.attrs, K("stethoscope.framework_version")))
  }

  /** Every write of the request, in order, were none rejected. */
  function RequestWrites(env: Env, req: Request, ps: seq<Project>, next: Ulid): seq<Write> {
    if |req| == 0 then []
    else
      var name, gs := ProjectName(req[0].attrs), Buckets(req[0]);
      match ResolveProject(ps, name)
      case Some(id) =>
        GroupsWrites(env, OriginOf(req[0], id), gs, next)
        + RequestWrites(env, req[1..], ps, NextAfterGroups(gs, next))
      case None =>
        var p := Project(next, name);
        [PutProject(p)]
        + GroupsWrites(env, OriginOf(req[0], next), gs, next + 1)
        + RequestWrites(env, req[1..], ps + [p], NextAfterGroups(gs, next + 1))
  }

  function SpanCount(req: Request): nat {
    if |req| == 0 then 0 else |Flatten(req[0].scopes)| + SpanCount(req[1..])
  }
}
