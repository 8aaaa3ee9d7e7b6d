/** What each column of an ingested row says of the span, attribute by attribute. */
module Columns {
  import opened Spans
  import opened Db
  import opened Ingest
  import opened Recording
  import opened Replay

  /** The attribute is this value. */
  predicate Has(sp: OtelSpan, name: string, v: AttrVal) {
    K(name) in sp.attrs && sp.attrs[K(name)] == v
  }

  /** It is a text that says something. */
  predicate Says(a: AttrMap, name: string) {
    K(name) in a && a[K(name)].S? && a[K(name)].s != ""
  }

  /** It is this integer, or a text the host reads as it. */
  predicate HasInt(h: Host, sp: OtelSpan, name: string, n: int) {
    K(name) in sp.attrs
    && match sp.attrs[K(name)] case I(i) => i == n case S(s) => h.parseInt(s) == Some(n) case _ => false
  }

  /** It is this number, whole or not, or a text the host reads as it. */
  predicate HasReal(h: Host, sp: OtelSpan, name: string, x: real) {
    K(name) in sp.attrs
    && match sp.attrs[K(name)]
       case F(f) => f == x
       case I(i) => i as real == x
       case S(s) => h.chars.numeral(s) == Some(x)
       case _ => false
  }

  // ---------- single columns ----------

  lemma IdentityKept(h: Host, sp: OtelSpan)
    ensures var row := MapSpan(h, sp);
            row.id == sp.id && row.trace == sp.trace && row.parent == sp.parent && row.name == sp.name
            && row.attrs == Obj(sp.attrs)
  {
    hide GetStr, GetInt, GetReal, GetBool, InferKind, StatusOf;
  }

  lemma CountsRead(h: Host, sp: OtelSpan, n: int)
    ensures var row := MapSpan(h, sp);
            && (row.tokensIn == Some(n) <==> HasInt(h, sp, "gen_ai.usage.input_tokens", n))
            && (row.tokensOut == Some(n) <==> HasInt(h, sp, "gen_ai.usage.output_tokens", n))
            && (row.tokensCached == Some(n) <==> HasInt(h, sp, "gen_ai.usage.cached_tokens", n))
  {
    hide GetStr, GetReal, GetBool, InferKind, StatusOf;
  }

  lemma NumbersRead(h: Host, sp: OtelSpan, x: real)
    ensures var row := MapSpan(h, sp);
            && (row.cost == Some(x) <==> HasReal(h, sp, "stethoscope.cost_usd", x))
            && (row.temperature == Some(x) <==> HasReal(h, sp, "gen_ai.request.temperature", x))
  {
    hide GetStr, GetInt, GetBool, InferKind, StatusOf;
  }

  lemma TextsRead(h: Host, sp: OtelSpan, s: string)
    ensures var row := MapSpan(h, sp);
            && (row.model == Some(s) <==> Has(sp, "gen_ai.request.model", S(s)))
            && (row.provider == Some(s) <==> Has(sp, "gen_ai.system", S(s)))
            && (row.promptHash == Some(s) <==> Has(sp, "stethoscope.prompt_hash", S(s)))
  {
    hide GetInt, GetReal, GetBool, InferKind, StatusOf;
  }

  lemma FlagsRead(h: Host, sp: OtelSpan, b: bool)
    ensures var row := MapSpan(h, sp);
            && (row.cacheable == Some(b) <==> Has(sp, "stethoscope.cacheable", B(b)))
            && (row.redacted <==> Has(sp, "stethoscope.redacted", B(true)))
  {
    hide GetStr, GetInt, GetReal, InferKind, StatusOf;
  }

  /** Zero is no time; a duration is in whole milliseconds and never negative. */
  lemma TimesRead(h: Host, sp: OtelSpan, t: Time, d: int)
    ensures var row := MapSpan(h, sp);
            && (row.start == Some(t) <==> t == sp.start && t > 0)
            && (row.end == Some(t) <==> t == sp.end && t > 0)
            && (row.duration == Some(d) <==>
                  sp.start > 0 && sp.end >= sp.start && d * 1_000_000 <= sp.end - sp.start < (d + 1) * 1_000_000)
  {
    hide GetStr, GetInt, GetReal, GetBool, InferKind, StatusOf;
  }

  /** Only the status code for errors makes a row an error; its message is kept
      unless it is empty. */
  lemma StatusRead(h: Host, sp: OtelSpan, s: string)
    ensures var row := MapSpan(h, sp);
            && (row.status == "error" <==> exists message :: sp.status == Some((2, message)))
            && (row.status == "error" || row.status == "ok")
            && (row.error == Some(s) <==> sp.status == Some((2, s)) && s != "")
  {
    hide GetStr, GetInt, GetReal, GetBool, InferKind;
    if sp.status.Some? { assert sp.status == Some((sp.status.value.0, sp.status.value.1)); }
  }

  // ---------- kinds ----------

  /** A stated kind is kept. Otherwise a span with a model is a model call; else one
      with a tool name, or whose name starts with tool:, is a tool call; and any
      other is a node. */
  lemma KindRead(h: Host, sp: OtelSpan)
    ensures var row := MapSpan(h, sp);
            var named := Says(sp.attrs, "gen_ai.tool.name") || (|sp.name| >= 5 && sp.name[..5] == "tool:");
            if Says(sp.attrs, "stethoscope.kind") then Has(sp, "stethoscope.kind", S(row.kind))
            else
              && (row.kind == "llm_call" <==> row.model.Some? && row.model.value != "")
              && (row.kind == "tool_call" <==> (row.model.None? || row.model.value == "") && named)
              && (row.kind == "node_execution" <==> (row.model.None? || row.model.value == "") && !named)
  {
    hide GetInt, GetReal, GetBool, StatusOf;
  }

  /** A cached response exactly for a model call with a prompt hash and a completion;
      without a stated kind, for a span with a model, a hash and a completion. */
  lemma CacheRead(h: Host, sp: OtelSpan, now: Time)
    ensures var row, c, k := MapSpan(h, sp), CacheOf(h, sp, now), At("gen_ai.completion", 0, "content");
            && (c.Some? <==> row.kind == "llm_call" && Says(sp.attrs, "stethoscope.prompt_hash")
                             && k in sp.attrs && sp.attrs[k].S?)
            && (c.Some? ==>
                  && Has(sp, "stethoscope.prompt_hash", S(c.value.hash)) && sp.attrs[k] == S(c.value.response)
                  && c.value.model == row.model && c.value.tokensIn == row.tokensIn
                  && c.value.tokensOut == row.tokensOut
                  && c.value.captured == if sp.start > 0 then sp.start else now)
            && (!Says(sp.attrs, "stethoscope.kind") ==>
                  (c.Some? <==> Says(sp.attrs, "gen_ai.request.model") && Says(sp.attrs, "stethoscope.prompt_hash")
                                && k in sp.attrs && sp.attrs[k].S?))
  {
    KindRead(h, sp);
    hide GetInt, GetReal, GetBool, StatusOf, InferKind;
  }

  /** A tool call exactly for a span of that kind with a tool name under one of two
      keys, the first of which wins. */
  lemma ToolRead(h: Host, sp: OtelSpan)
    ensures var c := ToolOf(sp);
            && (c.Some? <==> MapSpan(h, sp).kind == "tool_call"
                             && (Says(sp.attrs, "gen_ai.tool.name") || Says(sp.attrs, "stethoscope.tool_name")))
            && (c.Some? ==>
                  && c.value.span == sp.id && c.value.argsRef == None && c.value.resultRef == None
                  && Has(sp, if Says(sp.attrs, "gen_ai.tool.name") then "gen_ai.tool.name" else "stethoscope.tool_name",
                         S(c.value.tool)))
  {
    hide GetInt, GetReal, GetBool, StatusOf, InferKind;
  }

  lemma ToolTextsRead(sp: OtelSpan, s: string)
    ensures var c := ToolOf(sp);
            c.Some? ==>
              && (c.value.args == Some(s) <==> Has(sp, "stethoscope.tool.arguments", S(s)))
              && (c.value.result == Some(s) <==> Has(sp, "stethoscope.tool.result", S(s)))
              && (c.value.error == Some(s) <==> Has(sp, "stethoscope.tool.error", S(s)))
  {
    hide InferKind;
  }

  // ---------- without the stated kind ----------

  function KindDropped(sp: OtelSpan): OtelSpan { sp.(attrs := sp.attrs - {K("stethoscope.kind")}) }

  predicate NoForeignKeys(a: AttrMap) {
    K("gen_ai.request.model") !in a && K("gen_ai.tool.name") !in a
  }

  lemma OwnModel(e: Event)
    ensures var a, m, t := OwnAttrs(e), K("gen_ai.request.model"), K("gen_ai.tool.name");
            match e.action
            case Llm(_, model, _) => m in a && a[m] == S(model)
            case Tool(name, _) => m !in a && t in a && a[t] == S(name)
            case FailedTool(name, _, _) => m !in a && t in a && a[t] == S(name)
            case _ => m !in a && t !in a
  {}

  lemma NodeNames(title: string)
    ensures "node:" + title != "" && !("tool:" <= "node:" + title)
  {
    assert ("node:" + title)[0] == 'n';
  }

  lemma ToolNames(name: string)
    ensures |"tool:" + name| >= 5 && ("tool:" + name)[..5] == "tool:"
  {}

  /** Had the SDK not stated the kind of a span, ingestion would have inferred the
      same: for a model call with a model name, every tool call, and a node whose
      own attributes name no model or tool. */
  lemma KindInferred(h: Host, t: TraceId, e: Event, at: Stamp)
    requires e.action != Done
    requires e.action.Llm? ==> e.action.model != ""
    requires e.action.Node? ==> NoForeignKeys(e.action.extra)
    ensures MapSpan(h, KindDropped(Emit(t, e, at))).kind == MapSpan(h, Emit(t, e, at)).kind
  {
    var sp := KindDropped(Emit(t, e, at));
    KindOf(h, e, t, at);
    KindRead(h, sp);
    OwnModel(e);
    match e.action
    case Node(title, _) => NodeNames(title);
    case Tool(name, _) => ToolNames(name);
    case FailedTool(name, _, _) => ToolNames(name);
    case _ =>
    ModelSeen(h, t, e, at);
    hide MapSpan, OwnAttrs, Emit;
  }

  /** The model and the tool name that ingestion sees of a captured span. */
  lemma ModelSeen(h: Host, t: TraceId, e: Event, at: Stamp)
    requires e.action.Node? ==> NoForeignKeys(e.action.extra)
    ensures var sp := KindDropped(Emit(t, e, at));
            && sp.name == EventName(e) && !Says(sp.attrs, "stethoscope.kind")
            && MapSpan(h, sp).model == (if e.action.Llm? then Some(e.action.model) else None)
            && (e.action.Node? ==> !Says(sp.attrs, "gen_ai.tool.name"))
  {
    OwnModel(e);
    var sp := KindDropped(Emit(t, e, at));
    if e.action.Llm? { TextsRead(h, sp, e.action.model); }
    NoModelSeen(h, sp);
    hide MapSpan, OwnAttrs, EventName;
  }

  lemma NoModelSeen(h: Host, sp: OtelSpan)
    ensures K("gen_ai.request.model") !in sp.attrs ==> MapSpan(h, sp).model == None
  {
    hide GetInt, GetReal, GetBool, InferKind, StatusOf;
  }

  /** The same holds of the root of a run, if its title does not start with tool:. */
  lemma RootKindInferred(h: Host, s: Session, at: Stamp)
    requires !("tool:" <= s.title)
    ensures MapSpan(h, KindDropped(EmitRoot(s, at))).kind == MapSpan(h, EmitRoot(s, at)).kind
  {
    var sp := KindDropped(EmitRoot(s, at));
    RootKind(h, s, at);
    KindRead(h, sp);
    NoModelSeen(h, sp);
    assert K("gen_ai.request.model") !in sp.attrs && K("gen_ai.tool.name") !in sp.attrs by {
      assert K("gen_ai.request.model") in RECORDED && K("gen_ai.tool.name") in RECORDED;
      assert K("gen_ai.request.model") !in RootAttrs(s) && K("gen_ai.tool.name") !in RootAttrs(s);
    }
    assert K("stethoscope.kind") !in sp.attrs;
    hide MapSpan, EmitRoot;
  }

  // ---------- what the tracer gives ----------

  predicate FromTracer(row: Span, t: TraceId, at: Stamp) {
    && row.id == at.id && row.trace == t && row.parent == at.parent
    && row.start == (if at.start == 0 then None else Some(at.start))
    && row.end == (if at.end == 0 then None else Some(at.end))
  }

  /** The row of a captured span has the ids, parent and times that the tracer gave it. */
  lemma TracerKept(h: Host, s: Session, e: Event, at: Stamp)
    ensures FromTracer(MapSpan(h, Emit(s.trace, e, at)), s.trace, at)
    ensures FromTracer(MapSpan(h, EmitRoot(s, at)), s.trace, at) && EmitRoot(s, at).name == s.title
  {
    hide EventAttrs, RootAttrs, RECORDED, EventName, GetStr, GetInt, GetReal, GetBool, InferKind, StatusOf;
  }

  /** A captured span is named after its kind and its model, tool or step. */
  lemma NamedAfter(t: TraceId, e: Event, at: Stamp, x: string)
    ensures var name := Emit(t, e, at).name;
            && (e.action.Llm? ==> (name == "llm:" + x <==> e.action.model == x))
            && (e.action.Tool? || e.action.FailedTool? ==> (name == "tool:" + x <==> e.action.name == x))
            && (e.action.Node? ==> (name == "node:" + x <==> e.action.title == x))
  {
    assert ("llm:" + x)[4..] == x && ("tool:" + x)[5..] == x && ("node:" + x)[5..] == x;
    var y := match e.action case Llm(_, m, _) => m case Tool(n, _) => n case FailedTool(n, _, _) => n
                            case Node(n, _) => n case Done => "";
    assert ("llm:" + y)[4..] == y && ("tool:" + y)[5..] == y && ("node:" + y)[5..] == y;
    hide EventAttrs;
  }

  /** The row shows what was added to a span while it was open, and what was given with
      a model call or a node when it was opened, save what the SDK writes itself. */
  lemma AddedShows(h: Host, s: Session, e: Event, at: Stamp, k: AttrKey)
    requires k !in RECORDED && k !in OwnAttrs(e)
    ensures var a, late := MapSpan(h, Emit(s.trace, e, at)).attrs, at.close.late;
            && a.Obj? && (k in late ==> k in a.fields && a.fields[k] == late[k])
            && (k !in late && (e.action.Llm? || e.action.Node?) && k in e.action.extra ==>
                  k in a.fields && a.fields[k] == e.action.extra[k])
    ensures var a, late := MapSpan(h, EmitRoot(s, at)).attrs, at.close.late;
            a.Obj? && (k in late ==> k in a.fields && a.fields[k] == late[k])
  {
    IdentityKept(h, Emit(s.trace, e, at));
    IdentityKept(h, EmitRoot(s, at));
    assert k != COMPLETION;
    assert k !in RootAttrs(s);
    hide MapSpan, OwnAttrs, RECORDED, RootAttrs, EventName;
  }

  /** The SDK names a tool under both keys: either alone gives the same stored call. */
  lemma ToolNamedTwice(t: TraceId, e: Event, at: Stamp, name: string)
    requires (e.action.Tool? || e.action.FailedTool?) && name in {"gen_ai.tool.name", "stethoscope.tool_name"}
    ensures var sp := Emit(t, e, at); ToolOf(sp.(attrs := sp.attrs - {K(name)})) == ToolOf(sp)
  {
    OwnNames(e);
    var sp := Emit(t, e, at);
    var less := sp.(attrs := sp.attrs - {K(name)});
    forall k | k != K(name) ensures GetStr(less.attrs, k) == GetStr(sp.attrs, k) {}
    hide EventName, ExtraAttrs, OwnAttrs, RECORDED, GetStr;
    SameCall(less, sp, name, e.action.name);
  }

  lemma OwnNames(e: Event)
    requires e.action.Tool? || e.action.FailedTool?
    ensures var a, k, l := OwnAttrs(e), K("gen_ai.tool.name"), K("stethoscope.tool_name");
            && k in a && l in a && a[k] == a[l] == S(e.action.name)
            && K("stethoscope.kind") in a && a[K("stethoscope.kind")] == S("tool_call")
  {}

  lemma SameCall(less: OtelSpan, sp: OtelSpan, name: string, tool: string)
    requires less == sp.(attrs := less.attrs) && name in {"gen_ai.tool.name", "stethoscope.tool_name"}
    requires GetStr(less.attrs, K(name)) == None
    requires forall k :: k != K(name) ==> GetStr(less.attrs, k) == GetStr(sp.attrs, k)
    requires forall n :: n in {"gen_ai.tool.name", "stethoscope.tool_name"} ==> GetStr(sp.attrs, K(n)) == Some(tool)
    requires GetStr(sp.attrs, K("stethoscope.kind")) == Some("tool_call")
    ensures ToolOf(less) == ToolOf(sp)
  {
    hide GetStr;
    assert GetStr(sp.attrs, K("gen_ai.tool.name")) == GetStr(sp.attrs, K("stethoscope.tool_name")) == Some(tool);
  }
}
