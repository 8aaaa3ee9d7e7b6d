/**
 Replay: an agent's run against pinned responses, and the manifest that pins
 them, built from a recorded trace with one tool response changed.
 */
module Replay {
  import opened Spans
  import opened Db
  import Ingest

  // ---------- agents and runs ----------

  /** What an agent does next. Only model and tool calls wait for a response;
      the other two just leave a span behind. Each opens a span. */
  datatype Action =
    | Llm(hash: string, model: string, extra: Ingest.AttrMap)
    | Tool(name: string, args: Option<string>)
    | Node(title: string, extra: Ingest.AttrMap)
    | FailedTool(name: string, args: Option<string>, error: string)
    | Done

  /** A call answers or raises. */
  datatype Response = Answer(text: string) | Failure(error: string)

  /** How a span ends: the status it is left with, which an exception passing
      through sets, and what was added to it while it was open. */
  datatype Closing = Closing(status: Option<(int, string)>, late: Ingest.AttrMap)

  /** What an agent does by the responses it has had so far: it ends some of the
      spans that are open, innermost first, and then acts. */
  datatype Decision = Decision(closes: seq<Closing>, action: Action)

  type Agent = seq<Response> -> Decision

  datatype Event = Event(action: Action, response: Response)

  function Responses(es: seq<Event>): (r: seq<Response>)
    ensures |r| == |es| && forall k :: 0 <= k < |es| ==> r[k] == es[k].response
  {
    seq(|es|, k requires 0 <= k < |es| => es[k].response)
  }

  /** The k-th event is what the agent decides on after the events before it. */
  ghost predicate DecidedAt(agent: Agent, es: seq<Event>, k: nat)
    requires k < |es|
  {
    && es[k].action == agent(Responses(es[..k])).action && es[k].action != Done
    && (es[k].action.Node? || es[k].action.FailedTool? ==> es[k].response == Answer(""))
  }

  ghost predicate IsRun(agent: Agent, es: seq<Event>) {
    forall k :: 0 <= k < |es| ==> DecidedAt(agent, es, k)
  }

  ghost predicate Finished(agent: Agent, es: seq<Event>) {
    IsRun(agent, es) && agent(Responses(es)).action == Done
  }

  datatype Manifest = Manifest(
    parentTrace: TraceId, branchPoint: SpanId, entrypoint: string, llm: map<string, string>, tools: map<string, string>)

  /** What the n-th call would get if it were made in earnest. */
  type Live = nat -> Response

  /** A pinned call returns the pinned text; an unpinned one is made. */
  function Reply(m: Manifest, a: Action, live: Response): Response {
    match a
    case Llm(h, _, _) => if h in m.llm then Answer(m.llm[h]) else live
    case Tool(n, _) => if n in m.tools then Answer(m.tools[n]) else live
    case _ => Answer("")
  }

  ghost predicate IsReplay(agent: Agent, m: Manifest, live: Live, es: seq<Event>) {
    IsRun(agent, es) && GetsAll(m, live, es)
  }

  ghost predicate GetsAll(m: Manifest, live: Live, es: seq<Event>) {
    forall k :: 0 <= k < |es| ==> Gets(m, live, es, k)
  }

  /** Under the manifest the k-th call gets this very response. */
  predicate Gets(m: Manifest, live: Live, es: seq<Event>, k: nat)
    requires k < |es|
  {
    es[k].response == Reply(m, es[k].action, live(k))
  }

  /** As long as every call gets the recorded response, a replay repeats the
      recording. */
  lemma {:induction false} ReplayFollows(agent: Agent, m: Manifest, live: Live, es: seq<Event>, rs: seq<Event>, n: nat)
    requires IsRun(agent, es) && IsReplay(agent, m, live, rs) && n <= |es| && n <= |rs|
    requires forall k :: 0 <= k < n ==> Gets(m, live, es, k)
    ensures rs[..n] == es[..n]
  {
    if n > 0 {
      ReplayFollows(agent, m, live, es, rs, n - 1);
      assert DecidedAt(agent, es, n - 1) && DecidedAt(agent, rs, n - 1);
      assert Gets(m, live, es, n - 1) && Gets(m, live, rs, n - 1);
      assert rs[..n] == rs[..n - 1] + [rs[n - 1]] && es[..n] == es[..n - 1] + [es[n - 1]];
    }
  }

  lemma NotYetDone(agent: Agent, es: seq<Event>, k: nat)
    requires IsRun(agent, es) && k < |es|
    ensures agent(Responses(es[..k])).action != Done
  {
    assert DecidedAt(agent, es, k);
  }

  /** Replaying a finished run with every call getting the recorded response,
      pinned or live, repeats it: the run itself is a replay, and every finished
      replay is that run. */
  lemma PinnedReplayRepeats(agent: Agent, m: Manifest, live: Live, es: seq<Event>)
    requires Finished(agent, es) && GetsAll(m, live, es)
    ensures IsReplay(agent, m, live, es)
    ensures forall rs :: IsReplay(agent, m, live, rs) ==> rs <= es
    ensures forall rs :: IsReplay(agent, m, live, rs) && Finished(agent, rs) ==> rs == es
  {
    forall rs | IsReplay(agent, m, live, rs) ensures rs <= es {
      if |rs| <= |es| {
        ReplayFollows(agent, m, live, es, rs, |rs|);
        assert rs[..|rs|] == rs;
      } else {
        NotYetDone(agent, rs, |es|);
        assert es[..|es|] == es;
        ReplayFollows(agent, m, live, es, rs, |es|);
      }
    }
    forall rs | IsReplay(agent, m, live, rs) && Finished(agent, rs) ensures rs == es {
      assert rs <= es;
      assert es[..|es|] == es && es[..|rs|] == rs;
      if |rs| < |es| { NotYetDone(agent, es, |rs|); }
    }
  }

  /** Events before the first call of the tool. */
  function BeforeTool(es: seq<Event>, name: string): (n: nat)
    ensures n <= |es|
    ensures forall k :: 0 <= k < n ==> !(es[k].action.Tool? && es[k].action.name == name)
    ensures n < |es| ==> es[n].action.Tool? && es[n].action.name == name
  {
    if |es| == 0 || (es[0].action.Tool? && es[0].action.name == name) then 0 else 1 + BeforeTool(es[1..], name)
  }

  function Mutate(m: Manifest, name: string, value: string): Manifest {
    m.(tools := m.tools[name := value])
  }

  /** With one tool's response changed, a replay repeats the recording up to
      the first call of that tool, makes the same call, and gets the new value. */
  lemma MutatedReplayAgrees(agent: Agent, m: Manifest, live: Live, es: seq<Event>, name: string, value: string,
                            rs: seq<Event>)
    requires IsRun(agent, es) && IsReplay(agent, Mutate(m, name, value), live, rs)
    requires forall k :: 0 <= k < |es| ==> Gets(m, live, es, k) || (es[k].action.Tool? && es[k].action.name == name)
    ensures var n := BeforeTool(es, name);
            && (|rs| <= n ==> rs <= es)
            && (|rs| > n ==> rs[..n] == es[..n])
            && (|rs| > n && n < |es| ==> rs[n].action == es[n].action && rs[n].response == Answer(value))
  {
    var n, w := BeforeTool(es, name), Mutate(m, name, value);
    var k := if |rs| < n then |rs| else n;
    forall i | 0 <= i < n ensures Gets(w, live, es, i) {
      assert Gets(m, live, es, i);
    }
    ReplayFollows(agent, w, live, es, rs, k);
    if |rs| <= n {
      assert rs[..k] == rs;
    } else if n < |es| {
      assert DecidedAt(agent, es, n) && DecidedAt(agent, rs, n);
      assert Gets(w, live, rs, n);
    }
  }

  // ---------- building the manifest ----------

  datatype Mutation = ToolResponse(spanId: SpanId, value: string) | Unsupported(kind: string)

  datatype BranchError = UnknownTrace | NoEntrypoint | UnsupportedMutation | NotAToolCall

  datatype Branch = Ready(m: Manifest) | Refused(error: BranchError)

  /** The entrypoint named by the first span without a parent. */
  function Entrypoint(xs: seq<Span>): Option<string> {
    if |xs| == 0 then None
    else if xs[0].parent.Some? then Entrypoint(xs[1..])
    else match xs[0].attrs
      case Obj(a) => Ingest.GetStr(a, K("stethoscope.entrypoint"))
      case _ => None
  }

  /** A run can be branched if the first span without a parent names an entrypoint. */
  lemma {:induction false} EntrypointIs(xs: seq<Span>, i: nat)
    requires i < |xs| && xs[i].parent == None && forall j :: 0 <= j < i ==> xs[j].parent != None
    ensures var a, key := xs[i].attrs, K("stethoscope.entrypoint");
            Entrypoint(xs) ==
              if a.Obj? && key in a.fields && a.fields[key].S? then Some(a.fields[key].s) else None
  {
    if i > 0 {
      assert forall j :: 0 <= j < i - 1 ==> xs[1..][j] == xs[j + 1];
      EntrypointIs(xs[1..], i - 1);
    }
  }

  lemma {:induction false} NoRootNoEntrypoint(xs: seq<Span>)
    requires forall s :: s in xs ==> s.parent != None
    ensures Entrypoint(xs) == None
  {
    if |xs| > 0 { NoRootNoEntrypoint(xs[1..]); }
  }

  /** The response found for a model span: the cache, or else the last
      assistant message captured with the span. */
  ghost predicate LlmResponse(db: Tables, s: Span, r: Option<string>)
    requires s.promptHash.Some?
  {
    if s.promptHash.value in db.cache then r == Some(db.cache[s.promptHash.value].response)
    else
      (r == None && forall k :: k in db.messages && db.messages[k].span == s.id ==> db.messages[k].role != "assistant")
      || exists id :: IsLastAssistant(db, s.id, id)
           && r == Some(ContentOr(db.messages[id].content))
  }

  function ContentOr(c: Option<string>): string { if c.Some? then c.value else "" }

  predicate IsPinnedLlm(s: Span) { s.kind == "llm_call" && Ingest.Truthy(s.promptHash) }

  /** One turn of the manifest loop over the recorded spans. */
  ghost predicate Turn(db: Tables, s: Span, before: Manifest, after: Manifest) {
    && after.parentTrace == before.parentTrace && after.branchPoint == before.branchPoint
    && after.entrypoint == before.entrypoint
    && (if IsPinnedLlm(s) then
          exists r :: LlmResponse(db, s, r)
            && after.llm == if r.Some? then before.llm[s.promptHash.value := r.value] else before.llm
        else after.llm == before.llm)
    && after.tools ==
         if s.kind == "tool_call" && s.id in db.tools && db.tools[s.id].result.Some? then
           before.tools[db.tools[s.id].tool := db.tools[s.id].result.value]
         else before.tools
  }

  /** ms lists the manifests after 0, 1, ... turns over xs. */
  ghost predicate Turns(db: Tables, xs: seq<Span>, ms: seq<Manifest>) {
    && |ms| == |xs| + 1 && ms[0].llm == map[] && ms[0].tools == map[]
    && forall k :: 0 <= k < |xs| ==> Turn(db, xs[k], ms[k], ms[k + 1])
  }

  /** Builds the manifest of a branch: the fold over the recorded spans, with
      the mutated response laid over it; or the reason it is refused. */
  method BuildManifest(store: Store, trace: TraceId, branchPoint: SpanId, mutation: Mutation)
    returns (r: Branch, ghost xs: seq<Span>, ghost ms: seq<Manifest>)
    requires Keyed(store.spans)
    ensures StoreOrder(store.spans, trace, xs)
    ensures |xs| == 0 ==> r == Refused(UnknownTrace)
    ensures |xs| > 0 && !Ingest.Truthy(Entrypoint(xs)) ==> r == Refused(NoEntrypoint)
    ensures |xs| > 0 && Ingest.Truthy(Entrypoint(xs)) ==>
              match mutation
              case Unsupported(_) => r == Refused(UnsupportedMutation)
              case ToolResponse(id, value) =>
                if id !in store.tools then r == Refused(NotAToolCall)
                else
                  && Turns(store.Snapshot(), xs, ms)
                  && ms[0].parentTrace == trace && ms[0].branchPoint == branchPoint
                  && Some(ms[0].entrypoint) == Entrypoint(xs)
                  && r == Ready(Mutate(ms[|xs|], store.tools[id].tool, value))
  {
    var spans := store.GetSpans(trace);
    xs, ms := spans, [];
    if |spans| == 0 { return Refused(UnknownTrace), xs, ms; }
    var entrypoint := Entrypoint(spans);
    if !Ingest.Truthy(entrypoint) { return Refused(NoEntrypoint), xs, ms; }
    var m := Manifest(trace, branchPoint, entrypoint.value, map[], map[]);
    ms := [m];
    var n := 0;
    while n < |spans|
      invariant n <= |spans| && |ms| == n + 1 && ms[n] == m
      invariant ms[0] == Manifest(trace, branchPoint, entrypoint.value, map[], map[])
      invariant forall k :: 0 <= k < n ==> Turn(store.Snapshot(), spans[k], ms[k], ms[k + 1])
    {
      var next := ManifestTurn(store, spans[n], m);
      ghost var grown := ms + [next];
      assert forall k :: 0 <= k < |ms| ==> grown[k] == ms[k];
      m, ms := next, grown;
      n := n + 1;
    }
    if mutation.Unsupported? { return Refused(UnsupportedMutation), xs, ms; }
    if mutation.spanId !in store.tools { return Refused(NotAToolCall), xs, ms; }
    r := Ready(Mutate(m, store.tools[mutation.spanId].tool, mutation.value));
  }

  method ManifestTurn(store: Store, s: Span, m: Manifest) returns (after: Manifest)
    ensures Turn(store.Snapshot(), s, m, after)
  {
    after := m;
    if IsPinnedLlm(s) {
      var hash := s.promptHash.value;
      ghost var found: Option<string> := None;
      if hash in store.cache {
        found := Some(store.cache[hash].response);
        after := after.(llm := after.llm[hash := store.cache[hash].response]);
      } else {
        var asst := store.LastAssistant(s.id);
        if asst.Some? {
          var text := ContentOr(store.messages[asst.value].content);
          found := Some(text);
          after := after.(llm := after.llm[hash := text]);
        }
      }
      assert LlmResponse(store.Snapshot(), s, found);
    }
    if s.kind == "tool_call" && s.id in store.tools && store.tools[s.id].result.Some? {
      var tc := store.tools[s.id];
      after := after.(tools := after.tools[tc.tool := tc.result.value]);
    }
  }
}
