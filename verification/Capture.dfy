/** What the SDK captures about a model or tool call is what ingestion stores: the attribute keys agree. */
module Capture {
  import opened Spans
  import opened Db
  import opened Ingest
  import opened Recording
  import opened Replay

  /** What an agent tells the SDK about a model call, apart from its model. */
  datatype LlmCall = LlmCall(
    hash: Option<string>, completion: Option<string>, provider: Option<string>, tokensIn: Option<int>,
    tokensOut: Option<int>, tokensCached: Option<int>, temperature: Option<real>, cost: Option<real>,
    cacheable: Option<bool>, messages: seq<(string, string)>)

  // Values that are not given leave no attribute.
  function PutInt(a: AttrMap, name: string, v: Option<int>): AttrMap {
    if v.Some? then a[K(name) := I(v.value)] else a
  }

  function PutReal(a: AttrMap, name: string, v: Option<real>): AttrMap {
    if v.Some? then a[K(name) := F(v.value)] else a
  }

  function PutText(a: AttrMap, name: string, v: Option<string>): AttrMap {
    if v.Some? then a[K(name) := S(v.value)] else a
  }

  function PutFlag(a: AttrMap, name: string, v: Option<bool>): AttrMap {
    if v.Some? then a[K(name) := B(v.value)] else a
  }

  /** The indexed attributes of the first n prompt messages. */
  function PromptAttrs(ms: seq<(string, string)>, n: nat): AttrMap
    requires n <= |ms|
  {
    if n == 0 then map[]
    else
      PromptAttrs(ms, n - 1)[At("gen_ai.prompt", n - 1, "role") := S(ms[n - 1].0)]
                            [At("gen_ai.prompt", n - 1, "content") := S(ms[n - 1].1)]
  }

  function UsageAttrs(c: LlmCall): AttrMap {
    var a := PutText(map[], "gen_ai.system", c.provider);
    var b := PutReal(a, "gen_ai.request.temperature", c.temperature);
    var d := PutInt(b, "gen_ai.usage.input_tokens", c.tokensIn);
    var e := PutInt(d, "gen_ai.usage.output_tokens", c.tokensOut);
    var f := PutInt(e, "gen_ai.usage.cached_tokens", c.tokensCached);
    var g := PutReal(f, "stethoscope.cost_usd", c.cost);
    PutFlag(g, "stethoscope.cacheable", c.cacheable)
  }

  function CallAttrs(c: LlmCall): AttrMap { UsageAttrs(c) + PromptAttrs(c.messages, |c.messages|) }

  function PutReply(a: AttrMap, completion: Option<string>): AttrMap {
    match completion
    case None => a
    case Some(text) =>
      a[At("gen_ai.completion", 0, "role") := S("assistant")][At("gen_ai.completion", 0, "content") := S(text)]
  }

  function GivenAttrs(model: string, c: LlmCall): AttrMap {
    var own := map[K("stethoscope.kind") := S("llm_call"), K("gen_ai.request.model") := S(model)];
    PutReply(PutText(own, "stethoscope.prompt_hash", c.hash), c.completion)
  }

  function LlmSpan(t: TraceId, model: string, c: LlmCall, at: Stamp): OtelSpan {
    OtelSpan(t, at.id, at.parent, "llm:" + model, at.start, at.end, at.close.status,
             CallAttrs(c) + GivenAttrs(model, c))
  }

  /** One prompt message is there under its index, with its role. */
  ghost predicate PromptAt(a: AttrMap, ms: seq<(string, string)>, i: nat)
    requires i < |ms|
  {
    && At("gen_ai.prompt", i, "role") in a && a[At("gen_ai.prompt", i, "role")] == S(ms[i].0)
    && At("gen_ai.prompt", i, "content") in a && a[At("gen_ai.prompt", i, "content")] == S(ms[i].1)
  }

  lemma {:induction false} PromptsThere(ms: seq<(string, string)>, n: nat)
    requires n <= |ms|
    ensures forall i: nat :: i < n ==> PromptAt(PromptAttrs(ms, n), ms, i)
  {
    if n > 0 {
      PromptsThere(ms, n - 1);
      forall i: nat | i < n ensures PromptAt(PromptAttrs(ms, n), ms, i) {
        assert i < n - 1 ==> PromptAt(PromptAttrs(ms, n - 1), ms, i);
      }
    }
  }

  lemma {:induction false} PromptsOnly(ms: seq<(string, string)>, n: nat)
    requires n <= |ms|
    ensures forall k :: k in PromptAttrs(ms, n) ==>
              k.At? && k.prefix == "gen_ai.prompt" && k.i < n && k.field in {"role", "content"}
  {
    if n > 0 { PromptsOnly(ms, n - 1); }
  }

  /** The key has this value, or is not there. */
  predicate Reads(a: AttrMap, name: string, v: Option<AttrVal>) {
    if v.Some? then K(name) in a && a[K(name)] == v.value else K(name) !in a
  }

  function Text(v: Option<string>): Option<AttrVal> { if v.Some? then Some(S(v.value)) else None }

  function Whole(v: Option<int>): Option<AttrVal> { if v.Some? then Some(I(v.value)) else None }

  function Decimal(v: Option<real>): Option<AttrVal> { if v.Some? then Some(F(v.value)) else None }

  function Flag(v: Option<bool>): Option<AttrVal> { if v.Some? then Some(B(v.value)) else None }

  predicate TokensRead(a: AttrMap, c: LlmCall) {
    && Reads(a, "gen_ai.usage.input_tokens", Whole(c.tokensIn))
    && Reads(a, "gen_ai.usage.output_tokens", Whole(c.tokensOut))
    && Reads(a, "gen_ai.usage.cached_tokens", Whole(c.tokensCached))
  }

  predicate SettingsRead(a: AttrMap, c: LlmCall) {
    && Reads(a, "gen_ai.system", Text(c.provider))
    && Reads(a, "gen_ai.request.temperature", Decimal(c.temperature))
    && Reads(a, "stethoscope.cost_usd", Decimal(c.cost))
    && Reads(a, "stethoscope.cacheable", Flag(c.cacheable))
  }

  lemma TokenKeys(c: LlmCall)
    ensures TokensRead(UsageAttrs(c), c) && forall k :: k in UsageAttrs(c) ==> k.K?
  {}

  lemma SettingKeys(c: LlmCall)
    ensures SettingsRead(UsageAttrs(c), c) && K("stethoscope.redacted") !in UsageAttrs(c)
  {}

  const USAGE: set<string> := {
    "gen_ai.system", "gen_ai.request.temperature", "gen_ai.usage.input_tokens", "gen_ai.usage.output_tokens",
    "gen_ai.usage.cached_tokens", "stethoscope.cost_usd", "stethoscope.cacheable", "stethoscope.redacted"}

  lemma OwnKeys(model: string, c: LlmCall)
    ensures forall name :: name in USAGE ==> K(name) !in GivenAttrs(model, c)
    ensures forall i: nat, f :: At("gen_ai.prompt", i, f) !in GivenAttrs(model, c)
    ensures forall i: nat, f :: At("gen_ai.completion", i, f) in GivenAttrs(model, c)
              <==> c.completion.Some? && i == 0 && f in {"role", "content"}
  {
    hide Text, Whole;
  }

  lemma OwnReads(model: string, c: LlmCall)
    ensures var a := GivenAttrs(model, c);
            && Reads(a, "stethoscope.kind", Some(S("llm_call"))) && Reads(a, "gen_ai.request.model", Some(S(model)))
            && Reads(a, "stethoscope.prompt_hash", Text(c.hash))
            && GetStr(a, At("gen_ai.completion", 0, "content")) == c.completion
            && (c.completion.Some? ==> GetStr(a, At("gen_ai.completion", 0, "role")) == Some("assistant"))
  {}

  /** A plain key of the call is not hidden by its prompts or its reply. */
  lemma ShinesThrough(t: TraceId, model: string, c: LlmCall, at: Stamp, name: string, v: Option<AttrVal>)
    requires Reads(UsageAttrs(c), name, v) && name in USAGE
    ensures Reads(LlmSpan(t, model, c, at).attrs, name, v)
  {
    PromptsOnly(c.messages, |c.messages|);
    OwnKeys(model, c);
    hide UsageAttrs, PromptAttrs, GivenAttrs, USAGE;
  }

  lemma NoHash(c: LlmCall)
    ensures K("stethoscope.prompt_hash") !in UsageAttrs(c)
  {}

  lemma OwnShow(t: TraceId, model: string, c: LlmCall, at: Stamp)
    ensures var a := LlmSpan(t, model, c, at).attrs;
            && Reads(a, "stethoscope.kind", Some(S("llm_call"))) && Reads(a, "gen_ai.request.model", Some(S(model)))
            && Reads(a, "stethoscope.prompt_hash", Text(c.hash))
  {
    PromptsOnly(c.messages, |c.messages|);
    NoHash(c);
    OwnKeys(model, c);
    OwnReads(model, c);
    hide UsageAttrs, PromptAttrs, GivenAttrs;
  }

  /** The attributes of the span: those of the call, its prompts and its reply. */
  lemma SpanKeys(t: TraceId, model: string, c: LlmCall, at: Stamp)
    ensures var a := LlmSpan(t, model, c, at).attrs;
            && TokensRead(a, c) && SettingsRead(a, c) && Reads(a, "stethoscope.redacted", None)
  {
    TokenKeys(c);
    SettingKeys(c);
    hide UsageAttrs, LlmSpan, Text, Whole, Decimal, Flag;
    ShinesThrough(t, model, c, at, "gen_ai.usage.input_tokens", Whole(c.tokensIn));
    ShinesThrough(t, model, c, at, "gen_ai.usage.output_tokens", Whole(c.tokensOut));
    ShinesThrough(t, model, c, at, "gen_ai.usage.cached_tokens", Whole(c.tokensCached));
    ShinesThrough(t, model, c, at, "gen_ai.system", Text(c.provider));
    ShinesThrough(t, model, c, at, "gen_ai.request.temperature", Decimal(c.temperature));
    ShinesThrough(t, model, c, at, "stethoscope.cost_usd", Decimal(c.cost));
    ShinesThrough(t, model, c, at, "stethoscope.cacheable", Flag(c.cacheable));
    ShinesThrough(t, model, c, at, "stethoscope.redacted", None);
  }

  /** Every value given to the SDK for a model call comes back from the stored
      row in its own column, and one that was not given comes back as missing. */
  lemma LlmCallRoundTrip(h: Host, t: TraceId, model: string, c: LlmCall, at: Stamp)
    ensures var row := MapSpan(h, LlmSpan(t, model, c, at));
            && row.kind == "llm_call" && row.name == "llm:" + model && row.model == Some(model)
            && row.promptHash == c.hash && row.provider == c.provider && row.temperature == c.temperature
            && row.tokensIn == c.tokensIn && row.tokensOut == c.tokensOut && row.tokensCached == c.tokensCached
            && row.cost == c.cost && row.cacheable == c.cacheable
            && row.status == (if Failed(at.close) then "error" else "ok") && !row.redacted
            && row.error == (if Failed(at.close) && at.close.status.value.1 != "" then Some(at.close.status.value.1)
                             else None)
  {
    SpanKeys(t, model, c, at);
    OwnShow(t, model, c, at);
    hide CallAttrs, GivenAttrs;
  }

  lemma NoCompletion(c: LlmCall)
    ensures COMPLETION !in CallAttrs(c)
  {
    TokenKeys(c);
    PromptsOnly(c.messages, |c.messages|);
    hide UsageAttrs, PromptAttrs, TokensRead;
  }

  /** A call that is given a prompt hash leaves the span of a model event, answered
      if it is given a completion and failed otherwise. */
  lemma CallsAreEvents(t: TraceId, model: string, c: LlmCall, at: Stamp, error: string)
    requires c.hash.Some? && at.close.late == map[]
    ensures var r := match c.completion case Some(text) => Answer(text) case None => Failure(error);
            LlmSpan(t, model, c, at) == Emit(t, Event(Llm(c.hash.value, model, CallAttrs(c)), r), at)
  {
    NoCompletion(c);
    hide CallAttrs, RECORDED;
    var r := match c.completion case Some(text) => Answer(text) case None => Failure(error);
    var e := Event(Llm(c.hash.value, model, CallAttrs(c)), r);
    assert CallAttrs(c) - {COMPLETION} == CallAttrs(c);
    assert GivenAttrs(model, c) == OwnAttrs(e);
    assert EventAttrs(e, map[]) == CallAttrs(c) + GivenAttrs(model, c);
  }

  function RoleOr(role: string, default_: string): string { if role == "" then default_ else role }

  /** The messages from i on of a prefix that holds exactly n of them. */
  lemma {:induction false} MessagesListed(a: AttrMap, span: SpanId, prefix: string, role: string,
                                          ms: seq<(string, string)>,
                                          i: nat, at: nat, next: Ulid)
    requires i <= |ms| && At(prefix, |ms|, "content") !in a
    requires forall k: nat :: k < |ms| ==> GetStr(a, At(prefix, k, "content")) == Some(ms[k].1)
    requires forall k: nat :: k < |ms| ==> GetStr(a, At(prefix, k, "role")) == Some(ms[k].0)
    requires forall k: nat :: At(prefix, k, "tool_call_id") !in a
    ensures var r := MessagesFrom(a, span, prefix, role, i, at, next);
            && |r| == |ms| - i
            && forall k: nat :: k < |r| ==>
                 r[k] == Message(next + k, span, at + k, RoleOr(ms[i + k].0, role), Some(ms[i + k].1), None, None)
    decreases |ms| - i
  {
    if i < |ms| {
      assert GetStr(a, At(prefix, i, "content")).Some?;
      MessagesListed(a, span, prefix, role, ms, i + 1, at + 1, next + 1);
    }
  }

  /** The reply as the list of at most one message that it is. */
  function Reply(c: LlmCall): seq<(string, string)> {
    match c.completion case None => [] case Some(text) => [("assistant", text)]
  }

  /** The prompt messages and the completion, if there is one, come back as the
      span's messages, in order and numbered through; an empty role becomes the
      default one. */
  lemma ConversationRoundTrip(t: TraceId, model: string, c: LlmCall, at: Stamp, next: Ulid)
    ensures var r, n := MessagesOf(LlmSpan(t, model, c, at).attrs, at.id, next), |c.messages|;
            && |r| == (if c.completion.Some? then n + 1 else n)
            && (forall k: nat :: k < n ==>
                  r[k] == Message(next + k, at.id, k, RoleOr(c.messages[k].0, "user"), Some(c.messages[k].1), None, None))
            && (c.completion.Some? ==> r[n] == Message(next + n, at.id, n, "assistant", c.completion, None, None))
  {
    SpanPrompts(t, model, c, at);
    hide LlmSpan, MessagesFrom, GetStr;
    var a, n := LlmSpan(t, model, c, at).attrs, |c.messages|;
    forall k: nat | k < n
      ensures GetStr(a, At("gen_ai.prompt", k, "content")) == Some(c.messages[k].1)
      ensures GetStr(a, At("gen_ai.prompt", k, "role")) == Some(c.messages[k].0)
    {
      PromptsShow(t, model, c, at, k);
    }
    MessagesListed(a, at.id, "gen_ai.prompt", "user", c.messages, 0, 0, next);
    MessagesListed(a, at.id, "gen_ai.completion", "assistant", Reply(c), 0, n, next + n);
  }

  /** The indexed attributes of the span: its prompts and at most one completion. */
  lemma SpanPrompts(t: TraceId, model: string, c: LlmCall, at: Stamp)
    ensures var a, n := LlmSpan(t, model, c, at).attrs, |c.messages|;
            && At("gen_ai.prompt", n, "content") !in a && At("gen_ai.completion", |Reply(c)|, "content") !in a
            && (forall k: nat :: At("gen_ai.prompt", k, "tool_call_id") !in a)
            && GetStr(a, At("gen_ai.completion", 0, "content")) == c.completion
            && (c.completion.Some? ==> GetStr(a, At("gen_ai.completion", 0, "role")) == Some("assistant"))
            && (forall k: nat :: At("gen_ai.completion", k, "tool_call_id") !in a)
  {
    TokenKeys(c);
    PromptsOnly(c.messages, |c.messages|);
    OwnKeys(model, c);
    OwnReads(model, c);
    hide UsageAttrs, PromptAttrs, TokensRead, GivenAttrs, Reads;
  }

  lemma PromptsShow(t: TraceId, model: string, c: LlmCall, at: Stamp, k: nat)
    requires k < |c.messages|
    ensures var a := LlmSpan(t, model, c, at).attrs;
            && GetStr(a, At("gen_ai.prompt", k, "content")) == Some(c.messages[k].1)
            && GetStr(a, At("gen_ai.prompt", k, "role")) == Some(c.messages[k].0)
  {
    PromptsThere(c.messages, |c.messages|);
    OwnKeys(model, c);
    hide UsageAttrs, PromptAttrs, GivenAttrs, Reads;
    assert PromptAt(PromptAttrs(c.messages, |c.messages|), c.messages, k);
  }

  /** The replay cache keeps the completion with its model and token counts,
      under the prompt hash, for every call that has both. */
  lemma CacheRoundTrip(h: Host, t: TraceId, model: string, c: LlmCall, at: Stamp, now: Time)
    ensures CacheOf(h, LlmSpan(t, model, c, at), now) ==
              if !Truthy(c.hash) || c.completion.None? then None
              else Some(CacheRow(c.hash.value, Some(model), c.completion.value, c.tokensIn, c.tokensOut,
                                 if at.start == 0 then now else at.start))
  {
    LlmCallRoundTrip(h, t, model, c, at);
    SpanPrompts(t, model, c, at);
    StartKept(h, LlmSpan(t, model, c, at));
    hide MapSpan, CallAttrs, GivenAttrs;
  }

  lemma StartKept(h: Host, sp: OtelSpan)
    ensures MapSpan(h, sp).start == NonZero(sp.start)
  {}

  function ToolCallAttrs(name: string, args: Option<string>, result: Option<string>, error: Option<string>): AttrMap {
    PutText(PutText(ToolAttrs(name, args), "stethoscope.tool.result", result), "stethoscope.tool.error", error)
  }

  /** A tool call comes back with its name, arguments, result and error in their
      own columns, as long as it has a name. */
  lemma ToolCallRoundTrip(sp: OtelSpan, name: string, args: Option<string>, result: Option<string>, error: Option<string>)
    requires sp.attrs == ToolCallAttrs(name, args, result, error)
    ensures ToolOf(sp) == if name == "" then None else Some(ToolCall(sp.id, name, args, None, result, None, error))
  {
    hide ToolCallAttrs;
    ToolKeys(name, args, result, error);
  }

  lemma ToolKeys(name: string, args: Option<string>, result: Option<string>, error: Option<string>)
    ensures var a := ToolCallAttrs(name, args, result, error);
            && Reads(a, "stethoscope.kind", Some(S("tool_call"))) && Reads(a, "gen_ai.tool.name", Some(S(name)))
            && Reads(a, "stethoscope.tool_name", Some(S(name))) && Reads(a, "stethoscope.tool.arguments", Text(args))
            && Reads(a, "stethoscope.tool.result", Text(result)) && Reads(a, "stethoscope.tool.error", Text(error))
  {}

  /** The tool events of a run are such calls: answered, failed, or given up with
      an error of the agent's own. */
  lemma ToolEvents(t: TraceId, name: string, args: Option<string>, r: Response, error: string, at: Stamp)
    requires at.close.late == map[]
    ensures Emit(t, Event(Tool(name, args), r), at).attrs == ToolCallAttrs(name, args, Shows(r), None)
    ensures Emit(t, Event(FailedTool(name, args, error), Answer("")), at).attrs
              == ToolCallAttrs(name, args, None, Some(error))
  {
    hide RECORDED;
  }

  /** So what a replay finds of a tool event is what the call came back with. */
  lemma ToolEventRoundTrip(t: TraceId, name: string, args: Option<string>, r: Response, at: Stamp)
    requires at.close.late == map[] && name != ""
    ensures ToolOf(Emit(t, Event(Tool(name, args), r), at))
              == Some(ToolCall(at.id, name, args, None, Shows(r), None, None))
  {
    hide EventAttrs, EventName, ToolCallAttrs;
    ToolEvents(t, name, args, r, "", at);
    ToolCallRoundTrip(Emit(t, Event(Tool(name, args), r), at), name, args, Shows(r), None);
  }
}
