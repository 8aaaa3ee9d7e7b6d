/**
 Replay end to end: what the manifest of a recorded run pins, what a replay
 under it does, and where the diff of the two traces points.
 */
module ReplayLaws {
  import opened Spans
  import opened Closings
  import opened Db
  import opened Ingest
  import opened Replay
  import opened Recording
  import Diff
  import IngestRun

  // ---------- what the store holds of a run ----------

  /** The tool call row of the span is the one it was ingested with. */
  ghost predicate ToolKept(db: Tables, sp: OtelSpan) {
    match ToolOf(sp)
    case Some(c) => sp.id in db.tools && db.tools[sp.id] == c
    case None => sp.id !in db.tools
  }

  /** A model call whose answer ingestion caches. */
  predicate Caches(e: Event) { e.action.Llm? && e.action.hash != "" && e.response.Answer? }

  /** The recorded run is in the store: its spans, its tool calls, and some
      cached response for each of its model calls that was answered. */
  ghost predicate Holds(db: Tables, h: Host, s: Session, es: seq<Event>) {
    && WellStamped(s, es)
    && StoreOrder(db.spans, s.trace, Rows(h, s, es))
    && (forall k :: 0 <= k <= |es| ==> ToolKept(db, Emitted(s, es)[k]))
    && (forall k :: 0 <= k < |es| && Caches(es[k]) ==> es[k].action.hash in db.cache)
  }

  /** Only one listing of a trace is in store order. */
  lemma {:induction false} StoreOrderUnique(xs: seq<Span>, ys: seq<Span>)
    requires SortedSpans(xs) && SortedSpans(ys) && forall s :: s in xs <==> s in ys
    ensures xs == ys
    decreases |xs|
  {
    if |ys| > 0 { assert ys[0] in ys; }
    if |xs| > 0 {
      assert xs[0] in xs;
      assert |ys| > 0;
      assert ys[0] in ys;
      FirstIsLeast(xs, ys[0]);
      FirstIsLeast(ys, xs[0]);
      assert xs[0] == ys[0];
      forall s ensures s in xs[1..] <==> s in ys[1..] {
        TailMember(xs, s);
        TailMember(ys, s);
      }
      StoreOrderUnique(xs[1..], ys[1..]);
    }
  }

  lemma FirstIsLeast(xs: seq<Span>, s: Span)
    requires SortedSpans(xs) && s in xs
    ensures s == xs[0] || Before(xs[0], s)
  {}

  lemma TailMember(xs: seq<Span>, s: Span)
    requires SortedSpans(xs) && |xs| > 0
    ensures s in xs[1..] <==> s in xs && s != xs[0]
  {
    assert forall k :: 0 < k < |xs| ==> Before(xs[0], xs[k]);
  }

  // ---------- the manifest of a recorded run ----------

  /** Each message is stored under its own id. */
  ghost predicate KeyedMessages(db: Tables) {
    forall id :: id in db.messages ==> db.messages[id].id == id
  }

  /** The last assistant message stored for a span, if it has any. */
  ghost function LastSaid(db: Tables, span: SpanId): Option<string> {
    if exists id :: IsLastAssistant(db, span, id) then
      var id :| IsLastAssistant(db, span, id);
      Some(ContentOr(db.messages[id].content))
    else None
  }

  lemma LastSaidIs(db: Tables, row: Span, r: Option<string>)
    requires KeyedMessages(db) && row.promptHash.Some? && row.promptHash.value !in db.cache && LlmResponse(db, row, r)
    ensures r == LastSaid(db, row.id)
  {
    if i :| IsLastAssistant(db, row.id, i) {
      forall j | IsLastAssistant(db, row.id, j) ensures i == j {}
    }
  }

  /** What the store has for a model call: the cached response, or else the last
      assistant message of its span. */
  ghost function TextFor(db: Tables, hash: string, id: SpanId): Option<string> {
    if hash in db.cache then Some(db.cache[hash].response) else LastSaid(db, id)
  }

  /** The last answer of each tool among the first n events. */
  function ToolsAfter(es: seq<Event>, n: nat): map<string, string>
    requires n <= |es|
  {
    if n == 0 then map[]
    else
      var e := es[n - 1];
      if e.action.Tool? && e.action.name != "" && e.response.Answer? then
        ToolsAfter(es, n - 1)[e.action.name := e.response.text]
      else ToolsAfter(es, n - 1)
  }

  /** What the store has for each prompt among the first n events, as far as it
      has anything; of two spans with one prompt the later one counts. */
  ghost function LlmAfter(db: Tables, s: Session, es: seq<Event>, n: nat): map<string, string>
    requires n <= |es| && |s.stamps| == |es| + 1
  {
    if n == 0 then map[]
    else
      var e, before := es[n - 1], LlmAfter(db, s, es, n - 1);
      if !e.action.Llm? || e.action.hash == "" then before
      else match TextFor(db, e.action.hash, s.stamps[n].id)
        case Some(text) => before[e.action.hash := text]
        case None => before
  }

  lemma ToolOfEvent(t: TraceId, e: Event, at: Stamp)
    ensures match e.action
            case Tool(name, _) =>
              ToolOf(Emit(t, e, at)).Some? == (name != "")
              && (name != "" ==>
                    ToolOf(Emit(t, e, at)).value.tool == name
                    && ToolOf(Emit(t, e, at)).value.result == Shows(e.response))
            case FailedTool(name, _, _) =>
              ToolOf(Emit(t, e, at)).Some? ==> ToolOf(Emit(t, e, at)).value.result == None
            case _ => true
  {}

  /** What a stored span tells the manifest loop about its event. */
  ghost predicate Tells(db: Tables, row: Span, e: Event) {
    && (row.kind == "llm_call" <==> e.action.Llm?) && (e.action.Llm? ==> row.promptHash == Some(e.action.hash))
    && (row.kind == "tool_call" <==> e.action.Tool? || e.action.FailedTool?)
    && (e.action.Tool? ==> (row.id in db.tools) == (e.action.name != ""))
    && (e.action.Tool? && row.id in db.tools ==>
          db.tools[row.id].tool == e.action.name && db.tools[row.id].result == Shows(e.response))
    && (e.action.FailedTool? && row.id in db.tools ==> db.tools[row.id].result == None)
  }

  lemma RowTells(db: Tables, h: Host, s: Session, es: seq<Event>, k: nat)
    requires Holds(db, h, s, es) && k < |es|
    ensures Tells(db, Rows(h, s, es)[k + 1], es[k]) && Rows(h, s, es)[k + 1].id == s.stamps[k + 1].id
  {
    HeldParts(db, h, s, es);
    StampCount(s, es);
    RowTimes(h, s, es, k + 1);
    hide MapSpan, EventAttrs, StoreOrder, ToolOf, WellStamped, EventName, Tells;
    var e, at := es[k], s.stamps[k + 1];
    assert Emitted(s, es)[k + 1] == Emit(s.trace, e, at) && ToolKept(db, Emitted(s, es)[k + 1]);
    EventTells(db, h, s.trace, e, at);
  }

  /** A captured span whose tool call is stored tells of its event. */
  lemma EventTells(db: Tables, h: Host, t: TraceId, e: Event, at: Stamp)
    requires ToolKept(db, Emit(t, e, at))
    ensures Tells(db, MapSpan(h, Emit(t, e, at)), e)
  {
    KindOf(h, e, t, at);
    ToolOfEvent(t, e, at);
    IngestRun.MapSpanId(h, Emit(t, e, at));
    hide MapSpan, EventAttrs, ToolOf, EventName;
  }

  /** What one turn of the manifest loop does with the span of an event. */
  lemma EventTurn(db: Tables, row: Span, s: Session, es: seq<Event>, k: nat, before: Manifest, after: Manifest)
    requires KeyedMessages(db) && k < |es| && |s.stamps| == |es| + 1 && row.id == s.stamps[k + 1].id
    requires Tells(db, row, es[k]) && Turn(db, row, before, after)
    requires before.tools == ToolsAfter(es, k) && before.llm == LlmAfter(db, s, es, k)
    ensures after.tools == ToolsAfter(es, k + 1) && after.llm == LlmAfter(db, s, es, k + 1)
  {
    hide LastSaid, KeyedMessages, IsLastAssistant;
    if IsPinnedLlm(row) {
      var r :| LlmResponse(db, row, r)
               && after.llm == if r.Some? then before.llm[row.promptHash.value := r.value] else before.llm;
      if row.promptHash.value !in db.cache { LastSaidIs(db, row, r); }
    }
  }

  /** The root is no call and leaves the manifest as it was. */
  lemma RootTurn(db: Tables, h: Host, s: Session, es: seq<Event>, before: Manifest, after: Manifest)
    requires WellStamped(s, es) && Turn(db, Rows(h, s, es)[0], before, after)
    ensures after == before
  {
    RootKind(h, s, s.stamps[0]);
    hide MapSpan, LlmResponse, EmitRoot;
  }

  /** The loop collects the last answer of each tool and what the store has for
      each prompt. */
  lemma {:induction false} ManifestCollects(db: Tables, h: Host, s: Session, es: seq<Event>, ms: seq<Manifest>, n: nat)
    requires Holds(db, h, s, es) && KeyedMessages(db) && Turns(db, Rows(h, s, es), ms) && n <= |es|
    ensures ms[n + 1].tools == ToolsAfter(es, n) && ms[n + 1].llm == LlmAfter(db, s, es, n)
  {
    hide *;
    HeldParts(db, h, s, es);
    StampCount(s, es);
    var rows := Rows(h, s, es);
    TurnAt(db, rows, ms, n);
    if n == 0 {
      RootTurn(db, h, s, es, ms[0], ms[1]);
      NothingCollected(db, s, es);
    } else {
      ManifestCollects(db, h, s, es, ms, n - 1);
      RowTells(db, h, s, es, n - 1);
      EventTurn(db, rows[n], s, es, n - 1, ms[n], ms[n + 1]);
    }
  }

  lemma TurnAt(db: Tables, xs: seq<Span>, ms: seq<Manifest>, k: nat)
    requires Turns(db, xs, ms) && k < |xs|
    ensures |ms| == |xs| + 1 && Turn(db, xs[k], ms[k], ms[k + 1]) && ms[0].llm == map[] && ms[0].tools == map[]
  {}

  lemma NothingCollected(db: Tables, s: Session, es: seq<Event>)
    requires |s.stamps| == |es| + 1
    ensures ToolsAfter(es, 0) == map[] && LlmAfter(db, s, es, 0) == map[]
  {}

  lemma StampCount(s: Session, es: seq<Event>)
    requires WellStamped(s, es)
    ensures |s.stamps| == |es| + 1
  {}

  lemma HeldParts(db: Tables, h: Host, s: Session, es: seq<Event>)
    requires Holds(db, h, s, es)
    ensures WellStamped(s, es) && StoreOrder(db.spans, s.trace, Rows(h, s, es))
  {}

  predicate Calls(e: Event, name: string) { e.action.Tool? && e.action.name == name }

  /** A call that was answered. */
  predicate AnsweredBy(e: Event, name: string) { Calls(e, name) && e.response.Answer? }

  lemma {:induction false} ToolsAfterIs(es: seq<Event>, n: nat, name: string)
    requires n <= |es|
    ensures name in ToolsAfter(es, n) <==> name != "" && exists k :: 0 <= k < n && AnsweredBy(es[k], name)
    ensures name in ToolsAfter(es, n) ==>
              exists k :: 0 <= k < n && AnsweredBy(es[k], name) && es[k].response.text == ToolsAfter(es, n)[name]
  {
    if n > 0 { ToolsAfterIs(es, n - 1, name); }
  }

  /** The last text among the first n events that the store has for a prompt. */
  ghost function LastText(db: Tables, s: Session, es: seq<Event>, n: nat, hash: string): Option<string>
    requires n <= |es| && |s.stamps| == |es| + 1
  {
    if n == 0 then None
    else if es[n - 1].action.Llm? && es[n - 1].action.hash == hash && TextFor(db, hash, s.stamps[n].id).Some? then
      TextFor(db, hash, s.stamps[n].id)
    else LastText(db, s, es, n - 1, hash)
  }

  lemma {:induction false} LlmAfterIs(db: Tables, s: Session, es: seq<Event>, n: nat, hash: string)
    requires n <= |es| && |s.stamps| == |es| + 1
    ensures hash in LlmAfter(db, s, es, n) <==> hash != "" && LastText(db, s, es, n, hash).Some?
    ensures hash in LlmAfter(db, s, es, n) ==> Some(LlmAfter(db, s, es, n)[hash]) == LastText(db, s, es, n, hash)
  {
    hide TextFor;
    if n > 0 { LlmAfterIs(db, s, es, n - 1, hash); }
  }

  /** For a recorded prompt that is cached, this is the cached response. */
  lemma {:induction false} CachedText(db: Tables, s: Session, es: seq<Event>, n: nat, hash: string, k: nat)
    requires k < n <= |es| && |s.stamps| == |es| + 1 && es[k].action.Llm? && es[k].action.hash == hash
    requires hash in db.cache
    ensures LastText(db, s, es, n, hash) == Some(db.cache[hash].response)
  {
    if k < n - 1 { CachedText(db, s, es, n - 1, hash, k); }
  }

  // ---------- replaying it ----------

  /** The recording can be repeated with this tool response laid over it. A call
      with a record gets what is recorded: the store's text for its prompt, the
      answer of its tool, which must have been the same each time, or the value
      laid over; a call without one is made again, and must turn out the same. */
  ghost predicate Repeatable(db: Tables, s: Session, es: seq<Event>, name: string, value: string, live: Live)
    requires |s.stamps| == |es| + 1
  {
    forall k :: 0 <= k < |es| ==> Repeats(db, s, es, name, value, live, k)
  }

  ghost predicate Repeats(db: Tables, s: Session, es: seq<Event>, name: string, value: string, live: Live, k: nat)
    requires k < |es| && |s.stamps| == |es| + 1
  {
    match es[k].action
    case Llm(hash, _, _) => es[k].response == ModelReply(db, s, es, hash, live(k))
    case Tool(tool, _) =>
      if tool == name then es[k].response == Answer(value)
      else if tool != "" && exists j :: 0 <= j < |es| && AnsweredBy(es[j], tool) then
        forall j :: 0 <= j < |es| && Calls(es[j], tool) ==> es[j].response == es[k].response
      else es[k].response == live(k)
    case _ => true
  }

  /** What a replay gets for a recorded prompt: the cached response, if there is
      one, else the last assistant message captured with it, else a live one. */
  ghost function ModelReply(db: Tables, s: Session, es: seq<Event>, hash: string, live: Response): Response
    requires |s.stamps| == |es| + 1
  {
    if hash == "" then live
    else if hash in db.cache then Answer(db.cache[hash].response)
    else match LastText(db, s, es, |es|, hash) case Some(text) => Answer(text) case None => live
  }

  /** The manifest of a recorded run gives its calls the recorded responses
      exactly when the recording is repeatable. */
  lemma ManifestPins(agent: Agent, db: Tables, h: Host, s: Session, es: seq<Event>, ms: seq<Manifest>,
                     name: string, value: string, live: Live)
    requires IsRun(agent, es) && Holds(db, h, s, es) && KeyedMessages(db) && Turns(db, Rows(h, s, es), ms)
    ensures |ms| == |es| + 2 && |s.stamps| == |es| + 1
    ensures GetsAll(Mutate(ms[|es| + 1], name, value), live, es) <==> Repeatable(db, s, es, name, value, live)
  {
    hide Turns, Holds, Rows, Gets, Repeats, KeyedMessages, WellStamped, ToolsAfter, LlmAfter;
    var n := |es|;
    TurnCount(db, h, s, es, ms);
    HeldParts(db, h, s, es);
    StampCount(s, es);
    var m := Mutate(ms[n + 1], name, value);
    ManifestCollects(db, h, s, es, ms, n);
    if Repeatable(db, s, es, name, value, live) {
      forall k | 0 <= k < n ensures Gets(m, live, es, k) {
        assert Repeats(db, s, es, name, value, live, k);
        RepeatsGets(agent, db, s, es, m, name, value, live, k);
      }
    }
    if GetsAll(m, live, es) {
      forall k | 0 <= k < n ensures Repeats(db, s, es, name, value, live, k) {
        GetsRepeats(db, s, es, m, name, value, live, k);
      }
    }
  }

  lemma TurnCount(db: Tables, h: Host, s: Session, es: seq<Event>, ms: seq<Manifest>)
    requires Holds(db, h, s, es) && Turns(db, Rows(h, s, es), ms)
    ensures |ms| == |es| + 2
  {}

  /** The manifest that was collected, with the value laid over it. */
  ghost predicate Collected(db: Tables, s: Session, es: seq<Event>, m: Manifest, name: string, value: string)
    requires |s.stamps| == |es| + 1
  {
    m.tools == ToolsAfter(es, |es|)[name := value] && m.llm == LlmAfter(db, s, es, |es|)
  }

  /** What a replay under it gets for a recorded model call. */
  lemma ModelGets(db: Tables, s: Session, es: seq<Event>, m: Manifest, name: string, value: string,
                  live: Response, k: nat)
    requires |s.stamps| == |es| + 1 && k < |es| && es[k].action.Llm? && Collected(db, s, es, m, name, value)
    ensures Reply(m, es[k].action, live) == ModelReply(db, s, es, es[k].action.hash, live)
  {
    hide ToolsAfter, LlmAfter, LastText;
    var hash := es[k].action.hash;
    LlmAfterIs(db, s, es, |es|, hash);
    if hash in db.cache { CachedText(db, s, es, |es|, hash, k); }
  }

  lemma RepeatsGets(agent: Agent, db: Tables, s: Session, es: seq<Event>, m: Manifest, name: string, value: string,
                    live: Live, k: nat)
    requires IsRun(agent, es) && |s.stamps| == |es| + 1 && k < |es| && Collected(db, s, es, m, name, value)
    requires Repeats(db, s, es, name, value, live, k)
    ensures Gets(m, live, es, k)
  {
    hide ToolsAfter, LlmAfter, ModelReply;
    assert DecidedAt(agent, es, k);
    var e := es[k];
    if e.action.Llm? {
      ModelGets(db, s, es, m, name, value, live(k), k);
    } else if e.action.Tool? {
      ToolsAfterIs(es, |es|, e.action.name);
    }
  }

  lemma GetsRepeats(db: Tables, s: Session, es: seq<Event>, m: Manifest, name: string, value: string,
                    live: Live, k: nat)
    requires |s.stamps| == |es| + 1 && k < |es| && Collected(db, s, es, m, name, value)
    requires GetsAll(m, live, es)
    ensures Repeats(db, s, es, name, value, live, k)
  {
    hide ToolsAfter, LlmAfter, ModelReply;
    var e := es[k];
    assert Gets(m, live, es, k);
    if e.action.Llm? {
      ModelGets(db, s, es, m, name, value, live(k), k);
    } else if e.action.Tool? {
      ToolsAfterIs(es, |es|, e.action.name);
      forall j | 0 <= j < |es| && Calls(es[j], e.action.name) && e.action.name in m.tools
        ensures es[j].response == e.response
      {
        assert Gets(m, live, es, j);
      }
    }
  }

  /** The first recorded call that does not get the recorded response. */
  function FirstUnpinned(m: Manifest, live: Live, es: seq<Event>, k: nat): (n: nat)
    requires k <= |es|
    ensures k <= n <= |es| && (forall j :: k <= j < n ==> Gets(m, live, es, j)) && (n < |es| ==> !Gets(m, live, es, n))
    decreases |es| - k
  {
    if k == |es| || !Gets(m, live, es, k) then k else FirstUnpinned(m, live, es, k + 1)
  }

  /** A finished replay repeats the recording up to the first call that does not
      get the recorded response; there it makes the same call and gets the other
      one. */
  lemma ReplayParts(agent: Agent, m: Manifest, live: Live, es: seq<Event>, rs: seq<Event>)
    requires Finished(agent, es) && Finished(agent, rs) && IsReplay(agent, m, live, rs)
    ensures var n := FirstUnpinned(m, live, es, 0);
            if n == |es| then rs == es
            else
              && n < |rs| && rs[..n] == es[..n] && rs[n].action == es[n].action
              && (es[n].action.Llm? || es[n].action.Tool?)
              && rs[n].response == Reply(m, es[n].action, live(n)) != es[n].response
  {
    var n := FirstUnpinned(m, live, es, 0);
    if n == |es| {
      PinnedReplayRepeats(agent, m, live, es);
    } else {
      var k := if |rs| < n then |rs| else n;
      ReplayFollows(agent, m, live, es, rs, k);
      if k == |rs| {
        assert rs[..k] == rs;
        NotYetDone(agent, es, k);
        assert false;
      }
      assert DecidedAt(agent, es, n) && DecidedAt(agent, rs, n);
      assert Gets(m, live, rs, n) && !Gets(m, live, es, n);
    }
  }

  /** The first call that does not get the recorded response failed both times,
      with different errors, which its span does not show. */
  predicate FailsTwice(m: Manifest, live: Live, es: seq<Event>) {
    var n := FirstUnpinned(m, live, es, 0);
    n < |es| && es[n].response.Failure? && Reply(m, es[n].action, live(n)).Failure?
  }

  /** Whether and where a replay departs from its recording. The manifest is
      built from a store that holds the recording; the diff compares the two
      traces as a later store returns them. It shows no divergence if the
      recording is repeatable, and then the runs are the same. If it is not, and
      the first call that does not get the recorded response did not fail both
      times, the diff points at the first of the spans around that call that ends
      differently, or if they all end alike, at the call. If it did, that holds as
      far as the spans around the call go. */
  lemma {:induction false} ReplayDiff(agent: Agent, h: Host, db: Tables, s: Session, es: seq<Event>, ms: seq<Manifest>,
                   name: string, value: string, live: Live,
                   later: Tables, u: Session, rs: seq<Event>, a: seq<Span>, b: seq<Span>)
    requires Finished(agent, es) && EndsAs(agent, es, s) && Holds(db, h, s, es)
    requires KeyedMessages(db) && Turns(db, Rows(h, s, es), ms)
    requires Finished(agent, rs) && EndsAs(agent, rs, u)
    requires IsReplay(agent, Mutate(ms[|es| + 1], name, value), live, rs)
    requires u.title == s.title && u.entrypoint == s.entrypoint
    requires Holds(later, h, s, es) && Holds(later, h, u, rs)
    requires StoreOrder(later.spans, s.trace, a) && StoreOrder(later.spans, u.trace, b)
    ensures var m := Mutate(ms[|es| + 1], name, value);
            var n, d := FirstUnpinned(m, live, es, 0), Diff.FirstDivergence(Diff.Alignment(a, b, Diff.Key));
            && (Repeatable(db, s, es, name, value, live) ==> d == None && rs == es)
            && (d == None && !FailsTwice(m, live, es) ==> Repeatable(db, s, es, name, value, live))
            && (d != None && !FailsTwice(m, live, es) ==>
                  n < |es| && n < |rs| && PointsAt(agent, s, es, u, n, d.value))
            && (n < |es| ==> AroundCall(agent, s, es, u, n, d))
  {
    hide Turns, Rows, Diff.Alignment, Diff.FirstDivergence, StoreOrder, IsReplay, Repeatable, PartAt,
         Gets, WellStamped, FirstUnlike, Mutate, OpenAt, EndsAs, PointsAt, AroundCall;
    TurnCount(db, h, s, es, ms);
    var m := Mutate(ms[|es| + 1], name, value);
    HeldParts(db, h, s, es);
    HeldParts(later, h, u, rs);
    StampCount(s, es);
    StampCount(u, rs);
    SameListing(later, s.trace, a, Rows(h, s, es));
    SameListing(later, u.trace, b, Rows(h, u, rs));
    ManifestPins(agent, db, h, s, es, ms, name, value, live);
    ReplayParts(agent, m, live, es, rs);
    var n := FirstUnpinned(m, live, es, 0);
    if n == |es| {
      SameRunAlike(agent, s, es, u);
      DiffOfRuns(h, s, es, u, rs, n);
    } else {
      if !FailsTwice(m, live, es) { ShownOtherwise(m, live, es, rs, n); }
      Pointed(agent, s, es, u, rs, n);
      DiffOfRuns(h, s, es, u, rs, n);
      Around(agent, s, es, u, n, Diff.FirstDivergence(Diff.Alignment(a, b, Diff.Key)));
    }
  }

  /** d is the first of the spans open while the n-th call was made that did not
      end alike, or the span of the call. */
  ghost predicate PointsAt(agent: Agent, s: Session, es: seq<Event>, u: Session, n: nat, d: nat)
    requires n < |es| && n < |s.stamps| && n < |u.stamps|
  {
    var open := OpenAt(agent, es, n + 1);
    && d in open && d <= n + 1
    && (forall k :: k in open && k < d ==> Alike(s, u, es, k))
    && (d <= n ==> !Alike(s, u, es, d))
  }

  /** As far as the spans opened before the n-th call go, d points at the first one
      open at the call that did not end alike, and past them if they all did. */
  ghost predicate AroundCall(agent: Agent, s: Session, es: seq<Event>, u: Session, n: nat, d: Option<nat>) {
    && n < |es| && n < |s.stamps| && n < |u.stamps|
    && (d.Some? && d.value <= n ==> PointsAt(agent, s, es, u, n, d.value))
    && (d.None? || d.value > n ==> forall k :: 0 <= k <= n ==> Alike(s, u, es, k))
  }

  lemma Around(agent: Agent, s: Session, es: seq<Event>, u: Session, n: nat, d: Option<nat>)
    requires n < |es| && n < |s.stamps| && n < |u.stamps|
    requires var f := FirstUnlike(s, u, es, 0, n);
             && PointsAt(agent, s, es, u, n, f) && (f <= n ==> d == Some(f))
             && (f == n + 1 && d.Some? ==> d.value > n)
    ensures AroundCall(agent, s, es, u, n, d)
  {
    hide Alike, OpenAt, FirstUnlike, PointsAt;
    FirstUnlikeIs(s, u, es, 0, n);
  }

  lemma Pointed(agent: Agent, s: Session, es: seq<Event>, u: Session, rs: seq<Event>, n: nat)
    requires EndsAs(agent, es, s) && EndsAs(agent, rs, u) && n < |es| && n < |rs| && es[..n] == rs[..n]
    ensures n < |s.stamps| && n < |u.stamps| && PointsAt(agent, s, es, u, n, FirstUnlike(s, u, es, 0, n))
  {
    hide Alike, OpenAt, ClosingOf, Bracketed, FirstUnlike;
    UnlikeIsOpen(agent, s, es, u, rs, n);
    FirstUnlikeIs(s, u, es, 0, n);
  }

  /** The root is open at every call, so if one run left it in error and the other
      did not, the diff points there, whichever call it was. */
  lemma RootFailureFirst(agent: Agent, s: Session, es: seq<Event>, u: Session, n: nat, d: nat)
    requires Bracketed(agent, es) && n < |es| && n < |s.stamps| && n < |u.stamps|
    requires PointsAt(agent, s, es, u, n, d) && Failed(s.stamps[0].close) != Failed(u.stamps[0].close)
    ensures d == 0
  {
    RootsUnlike(s, u, es);
    hide OpenAt, Bracketed, Alike;
    OpenAscends(agent, es, n + 1);
    LastOpen(agent, es, n + 1);
    assert OpenAt(agent, es, n + 1)[0] in OpenAt(agent, es, n + 1);
  }

  lemma RootsUnlike(s: Session, u: Session, es: seq<Event>)
    requires |s.stamps| > 0 && |u.stamps| > 0 && Failed(s.stamps[0].close) != Failed(u.stamps[0].close)
    ensures !Alike(s, u, es, 0)
  {
    hide RootAttrs;
  }

  /** The diff points at the call exactly if every span around it ends alike. */
  lemma PointsAtCall(agent: Agent, s: Session, es: seq<Event>, u: Session, n: nat, d: nat)
    requires Bracketed(agent, es) && n < |es| && n < |s.stamps| && n < |u.stamps| && PointsAt(agent, s, es, u, n, d)
    ensures d == n + 1 <==> forall k :: k in OpenAt(agent, es, n + 1) && k <= n ==> Alike(s, u, es, k)
  {
    hide OpenAt, Bracketed, Alike;
  }

  lemma ShownOtherwise(m: Manifest, live: Live, es: seq<Event>, rs: seq<Event>, n: nat)
    requires n == FirstUnpinned(m, live, es, 0) < |es| && n < |rs| && rs[n].action == es[n].action
    requires es[n].action.Llm? || es[n].action.Tool?
    requires rs[n].response == Reply(m, es[n].action, live(n)) != es[n].response && !FailsTwice(m, live, es)
    ensures PartAt(es, rs, n)
  {
    hide FirstUnpinned, Reply;
  }

  lemma SameListing(db: Tables, t: TraceId, xs: seq<Span>, ys: seq<Span>)
    requires StoreOrder(db.spans, t, xs) && StoreOrder(db.spans, t, ys)
    ensures xs == ys
  {
    StoreOrderUnique(xs, ys);
  }

  /** With any value but the recorded one, and everything else repeatable, the
      first call of the mutated tool is the first that does not get the recorded
      response. */
  lemma MutationDivergesAtFirstCall(agent: Agent, db: Tables, h: Host, s: Session, es: seq<Event>, ms: seq<Manifest>,
                                    name: string, value: string, live: Live)
    requires IsRun(agent, es) && Holds(db, h, s, es) && KeyedMessages(db) && Turns(db, Rows(h, s, es), ms)
    requires |s.stamps| == |es| + 1
    requires forall k :: 0 <= k < |es| && !Calls(es[k], name) ==> Repeats(db, s, es, name, value, live, k)
    requires var n := BeforeTool(es, name); n < |es| && es[n].response != Answer(value)
    ensures FirstUnpinned(Mutate(ms[|es| + 1], name, value), live, es, 0) == BeforeTool(es, name)
  {
    hide Turns, Holds, Rows, Repeats, ToolsAfter, LlmAfter;
    var n := BeforeTool(es, name);
    TurnCount(db, h, s, es, ms);
    var m := Mutate(ms[|es| + 1], name, value);
    ManifestCollects(db, h, s, es, ms, |es|);
    forall k | 0 <= k < n ensures Gets(m, live, es, k) {
      RepeatsGets(agent, db, s, es, m, name, value, live, k);
    }
    assert !Gets(m, live, es, n);
  }
}
