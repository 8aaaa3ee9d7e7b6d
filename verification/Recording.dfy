/**
 How a run of an agent is exported as spans, what the store holds of it after
 ingestion, and how the spans of two runs compare.
 */
module Recording {
  import opened Spans
  import opened Ingest
  import opened Replay
  import opened TraceTotals
  import Diff

  // ---------- exporting a run ----------

  /** What the tracer adds to an event: its id, its parent, its times and how it
      ended. */
  datatype Stamp = Stamp(id: SpanId, parent: Option<SpanId>, start: Time, end: Time, close: Closing)

  /** One execution of an agent script. A replay's root links to the trace and
      span it branched from. */
  datatype Session = Session(
    trace: TraceId, title: string, entrypoint: string, link: Option<(string, string)>, stamps: seq<Stamp>)

  const COMPLETION: AttrKey := At("gen_ai.completion", 0, "content")

  /** The keys that tell of the call itself, which nothing added later overwrites. */
  const RECORDED: set<AttrKey> := {
    K("stethoscope.kind"), K("gen_ai.request.model"), K("gen_ai.tool.name"), K("stethoscope.tool_name"),
    K("stethoscope.prompt_hash"), K("stethoscope.tool.result"), K("stethoscope.entrypoint"), COMPLETION,
    K("stethoscope.parent_trace_id"), K("stethoscope.branch_point_span_id")}

  function RootAttrs(s: Session): AttrMap {
    var own := map[K("stethoscope.kind") := S("node_execution"), K("stethoscope.entrypoint") := S(s.entrypoint)];
    match s.link
    case None => own
    case Some(to) => own[K("stethoscope.parent_trace_id") := S(to.0)][K("stethoscope.branch_point_span_id") := S(to.1)]
  }

  function ToolAttrs(name: string, args: Option<string>): AttrMap {
    var own := map[K("stethoscope.kind") := S("tool_call"), K("gen_ai.tool.name") := S(name),
                   K("stethoscope.tool_name") := S(name)];
    match args case None => own case Some(text) => own[K("stethoscope.tool.arguments") := S(text)]
  }

  function LlmAttrs(hash: string, model: string): AttrMap {
    map[K("stethoscope.kind") := S("llm_call"), K("gen_ai.request.model") := S(model),
        K("stethoscope.prompt_hash") := S(hash)]
  }

  /** What the span of a call shows of its outcome: an answer, if there is one. */
  function Shows(o: Response): Option<string> {
    match o case Answer(text) => Some(text) case Failure(_) => None
  }

  function WithResult(a: AttrMap, o: Response): AttrMap {
    match o case Answer(text) => a[K("stethoscope.tool.result") := S(text)] case Failure(_) => a
  }

  function WithCompletion(a: AttrMap, o: Response): AttrMap {
    match o
    case Answer(text) => a[At("gen_ai.completion", 0, "role") := S("assistant")][COMPLETION := S(text)]
    case Failure(_) => a
  }

  /** What a span shows besides what was added while it was open. */
  function OwnAttrs(e: Event): AttrMap {
    match e.action
    case Llm(hash, model, _) => WithCompletion(LlmAttrs(hash, model), e.response)
    case Tool(name, args) => WithResult(ToolAttrs(name, args), e.response)
    case FailedTool(name, args, error) => ToolAttrs(name, args)[K("stethoscope.tool.error") := S(error)]
    case _ => map[K("stethoscope.kind") := S("node_execution")]
  }

  /** What the agent passed in when the span was opened. */
  function ExtraAttrs(a: Action): AttrMap {
    match a case Llm(_, _, extra) => extra - {COMPLETION} case Node(_, extra) => extra case _ => map[]
  }

  function EventAttrs(e: Event, late: AttrMap): AttrMap {
    ExtraAttrs(e.action) + (late - RECORDED) + OwnAttrs(e)
  }

  function EventName(e: Event): string {
    match e.action
    case Llm(_, model, _) => "llm:" + model
    case Tool(name, _) => "tool:" + name
    case FailedTool(name, _, _) => "tool:" + name
    case Node(title, _) => "node:" + title
    case Done => ""
  }

  function EmitRoot(s: Session, at: Stamp): OtelSpan {
    OtelSpan(s.trace, at.id, at.parent, s.title, at.start, at.end, at.close.status,
             (at.close.late - RECORDED) + RootAttrs(s))
  }

  function Emit(t: TraceId, e: Event, at: Stamp): OtelSpan {
    OtelSpan(t, at.id, at.parent, EventName(e), at.start, at.end, at.close.status, EventAttrs(e, at.close.late))
  }

  /** The k-th span: the root, or that of the event before. */
  function SpanAt(s: Session, es: seq<Event>, k: nat): OtelSpan
    requires k <= |es| && k < |s.stamps|
  {
    if k == 0 then EmitRoot(s, s.stamps[0]) else Emit(s.trace, es[k - 1], s.stamps[k])
  }

  /** The spans of a run in the order they were started: the root, then one
      for each event. */
  function Emitted(s: Session, es: seq<Event>): (r: seq<OtelSpan>)
    requires |s.stamps| == |es| + 1
    ensures |r| == |es| + 1 && forall k :: 0 <= k <= |es| ==> r[k] == SpanAt(s, es, k)
  {
    seq(|es| + 1, k requires 0 <= k <= |es| => SpanAt(s, es, k))
  }

  /** Ids are distinct, every span has a start, and only the root has no parent. */
  ghost predicate Stamped(s: Session, es: seq<Event>) {
    && |s.stamps| == |es| + 1
    && (forall i, j :: 0 <= i < j < |s.stamps| ==> s.stamps[i].id != s.stamps[j].id)
    && (forall i :: 0 <= i < |s.stamps| ==> s.stamps[i].start != 0)
    && s.stamps[0].parent.None? && (forall i :: 0 < i < |s.stamps| ==> s.stamps[i].parent.Some?)
  }

  /** The clock moved forward; spans that share a start time are told apart by id. */
  ghost predicate Ascending(s: Session) {
    forall i, j :: 0 <= i < j < |s.stamps| ==>
      s.stamps[i].start < s.stamps[j].start
      || (s.stamps[i].start == s.stamps[j].start && s.stamps[i].id < s.stamps[j].id)
  }

  ghost predicate WellStamped(s: Session, es: seq<Event>) { Stamped(s, es) && Ascending(s) }

  /** The rows of a recorded run. */
  function Rows(h: Host, s: Session, es: seq<Event>): (r: seq<Span>)
    requires |s.stamps| == |es| + 1
    ensures |r| == |es| + 1
  {
    Mapped(h, Emitted(s, es))
  }

  /** The rows of a run stand in store order exactly when its stamps ascend. */
  lemma RowsSorted(h: Host, s: Session, es: seq<Event>)
    requires Stamped(s, es)
    ensures SortedSpans(Rows(h, s, es)) <==> Ascending(s)
  {
    hide MapSpan, Emitted;
    var rows := Rows(h, s, es);
    forall i, j | 0 <= i < j < |rows|
      ensures Before(rows[i], rows[j]) <==>
                s.stamps[i].start < s.stamps[j].start
                || (s.stamps[i].start == s.stamps[j].start && s.stamps[i].id < s.stamps[j].id)
    {
      RowTimes(h, s, es, i);
      RowTimes(h, s, es, j);
    }
  }

  lemma RowTimes(h: Host, s: Session, es: seq<Event>, k: nat)
    requires Stamped(s, es) && k <= |es|
    ensures var row := Rows(h, s, es)[k];
            row.id == s.stamps[k].id && row.trace == s.trace && row.start == Some(s.stamps[k].start)
            && row.parent == s.stamps[k].parent
  {
    hide GetReal, GetInt, GetBool, InferKind, RootAttrs, EventAttrs, RECORDED;
    if k > 0 {
      assert Emitted(s, es)[k] == Emit(s.trace, es[k - 1], s.stamps[k]);
    }
  }

  // ---------- two runs side by side ----------

  lemma KindOf(h: Host, e: Event, t: TraceId, at: Stamp)
    ensures MapSpan(h, Emit(t, e, at)).kind ==
              if e.action.Llm? then "llm_call"
              else if e.action.Tool? || e.action.FailedTool? then "tool_call" else "node_execution"
    ensures MapSpan(h, Emit(t, e, at)).attrs == Obj(EventAttrs(e, at.close.late))
    ensures e.action.Llm? ==> MapSpan(h, Emit(t, e, at)).promptHash == Some(e.action.hash)
  {
    OwnSays(e);
    hide GetReal, GetInt, GetBool, StatusOf, EventName, OwnAttrs, ExtraAttrs, RECORDED;
  }

  lemma OwnSays(e: Event)
    ensures var a := OwnAttrs(e);
            && K("stethoscope.kind") in a
            && a[K("stethoscope.kind")] == S(if e.action.Llm? then "llm_call"
                                             else if e.action.Tool? || e.action.FailedTool? then "tool_call"
                                             else "node_execution")
            && (e.action.Llm? ==>
                  K("stethoscope.prompt_hash") in a && a[K("stethoscope.prompt_hash")] == S(e.action.hash))
  {}

  /** The span is left with an error status. */
  predicate Failed(c: Closing) { c.status.Some? && c.status.value.0 == 2 }

  /** The spans of an event that end so: the same status, and the same attributes
      in the end, the links to another trace aside. */
  ghost predicate EndsAlike(e: Event, c: Closing, d: Closing) {
    Failed(c) == Failed(d) && Diff.SameButLinks(EventAttrs(e, c.late), EventAttrs(e, d.late))
  }

  lemma StatusIs(h: Host, sp: OtelSpan)
    ensures MapSpan(h, sp).status == if sp.status.Some? && sp.status.value.0 == 2 then "error" else "ok"
    ensures MapSpan(h, sp).name == sp.name && MapSpan(h, sp).attrs == Obj(sp.attrs)
  {}

  /** Ids and times aside, equal events leave equal spans exactly if these end
      alike. */
  lemma SameEventsAgree(h: Host, e: Event, t: TraceId, at: Stamp, u: TraceId, bt: Stamp)
    ensures Diff.Agree(MapSpan(h, Emit(t, e, at)), MapSpan(h, Emit(u, e, bt)), Diff.Key)
            <==> EndsAlike(e, at.close, bt.close)
  {
    KindOf(h, e, t, at);
    KindOf(h, e, u, bt);
    StatusIs(h, Emit(t, e, at));
    StatusIs(h, Emit(u, e, bt));
    hide MapSpan, EventAttrs, EventName, Diff.SameButLinks;
    Diff.AgreeExactly(MapSpan(h, Emit(t, e, at)), MapSpan(h, Emit(u, e, bt)));
  }

  ghost predicate RootsEndAlike(s: Session, c: Closing, d: Closing) {
    && Failed(c) == Failed(d)
    && Diff.SameButLinks((c.late - RECORDED) + RootAttrs(s), (d.late - RECORDED) + RootAttrs(s))
  }

  lemma RootKind(h: Host, s: Session, at: Stamp)
    ensures MapSpan(h, EmitRoot(s, at)).kind == "node_execution"
  {
    hide GetReal, GetInt, GetBool, RECORDED;
  }

  lemma LinksAside(s: Session, u: Session, late: AttrMap)
    requires s.entrypoint == u.entrypoint
    ensures ((late - RECORDED) + RootAttrs(s)) - Diff.IGNORED_ATTRS
         == ((late - RECORDED) + RootAttrs(u)) - Diff.IGNORED_ATTRS
  {
    assert RootAttrs(s) - Diff.IGNORED_ATTRS == RootAttrs(u) - Diff.IGNORED_ATTRS;
    hide RECORDED, RootAttrs, Diff.IGNORED_ATTRS;
    var kept := late - RECORDED;
    assert (kept + RootAttrs(s)) - Diff.IGNORED_ATTRS
        == (kept - Diff.IGNORED_ATTRS) + (RootAttrs(s) - Diff.IGNORED_ATTRS);
    assert (kept + RootAttrs(u)) - Diff.IGNORED_ATTRS
        == (kept - Diff.IGNORED_ATTRS) + (RootAttrs(u) - Diff.IGNORED_ATTRS);
  }

  /** Two runs of one script have the same root exactly if their roots end alike:
      the links a replay adds do not count. */
  lemma RootsAgree(h: Host, s: Session, at: Stamp, u: Session, bt: Stamp)
    requires s.title == u.title && s.entrypoint == u.entrypoint
    ensures Diff.Agree(MapSpan(h, EmitRoot(s, at)), MapSpan(h, EmitRoot(u, bt)), Diff.Key)
            <==> RootsEndAlike(s, at.close, bt.close)
  {
    RootKind(h, s, at);
    RootKind(h, u, bt);
    StatusIs(h, EmitRoot(s, at));
    StatusIs(h, EmitRoot(u, bt));
    LinksAside(s, u, bt.close.late);
    var a, b := (at.close.late - RECORDED) + RootAttrs(s), (bt.close.late - RECORDED) + RootAttrs(u);
    Diff.SameButLinksIs(a, b);
    Diff.SameButLinksIs(a, (bt.close.late - RECORDED) + RootAttrs(s));
    hide MapSpan, RootAttrs, RECORDED, Diff.IGNORED_ATTRS, Diff.SameButLinks;
    Diff.AgreeExactly(MapSpan(h, EmitRoot(s, at)), MapSpan(h, EmitRoot(u, bt)));
  }

  /** The same call with another answer, or with an answer once and a failure
      once, leaves a span that differs, however it ends. */
  lemma OtherResponseDiverges(h: Host, e: Event, f: Event, t: TraceId, at: Stamp, u: TraceId, bt: Stamp)
    requires e.action == f.action && (e.action.Llm? || e.action.Tool?) && Shows(e.response) != Shows(f.response)
    ensures !Diff.Agree(MapSpan(h, Emit(t, e, at)), MapSpan(h, Emit(u, f, bt)), Diff.Key)
  {
    KindOf(h, e, t, at);
    KindOf(h, f, u, bt);
    hide MapSpan, EventAttrs, Diff.IGNORED_ATTRS, Emit;
    ShownApart(e, f, at.close.late, bt.close.late);
  }

  /** Two failures of one call look the same, whatever the errors, exactly if their
      spans end alike. */
  lemma FailuresLookAlike(h: Host, e: Event, f: Event, t: TraceId, at: Stamp, u: TraceId, bt: Stamp)
    requires e.action == f.action && e.response.Failure? && f.response.Failure?
    ensures Diff.Agree(MapSpan(h, Emit(t, e, at)), MapSpan(h, Emit(u, f, bt)), Diff.Key)
            <==> EndsAlike(e, at.close, bt.close)
  {
    assert OwnAttrs(e) == OwnAttrs(f);
    hide MapSpan, OwnAttrs;
    assert Emit(u, e, bt) == Emit(u, f, bt);
    SameEventsAgree(h, e, t, at, u, bt);
  }

  lemma ShownApart(e: Event, f: Event, late: AttrMap, later: AttrMap)
    requires e.action == f.action && (e.action.Llm? || e.action.Tool?) && Shows(e.response) != Shows(f.response)
    ensures EventAttrs(e, late) - Diff.IGNORED_ATTRS != EventAttrs(f, later) - Diff.IGNORED_ATTRS
  {
    var key := if e.action.Llm? then COMPLETION else K("stethoscope.tool.result");
    ShownAt(e, late);
    ShownAt(f, later);
    assert key !in Diff.IGNORED_ATTRS;
    hide EventAttrs, Diff.IGNORED_ATTRS;
    var a, b := EventAttrs(e, late) - Diff.IGNORED_ATTRS, EventAttrs(f, later) - Diff.IGNORED_ATTRS;
    assert key in a <==> Shows(e.response).Some?;
    assert key in b <==> Shows(f.response).Some?;
  }

  /** Where the span of a call shows its outcome. */
  lemma ShownAt(e: Event, late: AttrMap)
    requires e.action.Llm? || e.action.Tool?
    ensures var key, a := (if e.action.Llm? then COMPLETION else K("stethoscope.tool.result")), EventAttrs(e, late);
            && (key in a <==> Shows(e.response).Some?)
            && (Shows(e.response).Some? ==> a[key] == S(Shows(e.response).value))
  {}

  /** Two calls of one tool with different arguments leave spans that differ. */
  lemma OtherArgumentsDiverge(h: Host, name: string, args: Option<string>, others: Option<string>, r: Response,
                              t: TraceId, at: Stamp, u: TraceId, bt: Stamp)
    requires args != others && at.close.late == bt.close.late == map[]
    ensures !Diff.Agree(MapSpan(h, Emit(t, Event(Tool(name, args), r), at)),
                        MapSpan(h, Emit(u, Event(Tool(name, others), r), bt)), Diff.Key)
  {
    var e, f := Event(Tool(name, args), r), Event(Tool(name, others), r);
    KindOf(h, e, t, at);
    KindOf(h, f, u, bt);
    ArgumentsShown(name, args, r);
    ArgumentsShown(name, others, r);
    hide MapSpan, EventAttrs;
    Diff.AgreeExactly(MapSpan(h, Emit(t, e, at)), MapSpan(h, Emit(u, f, bt)));
  }

  lemma ArgumentsShown(name: string, args: Option<string>, r: Response)
    ensures var a, k := EventAttrs(Event(Tool(name, args), r), map[]), K("stethoscope.tool.arguments");
            (k in a <==> args.Some?) && (args.Some? ==> a[k] == S(args.value))
  {
    hide RECORDED;
  }

  /** The n-th events make the same call and show different outcomes. */
  predicate PartAt(es: seq<Event>, fs: seq<Event>, n: nat) {
    && n < |es| && n < |fs| && es[n].action == fs[n].action && (es[n].action.Llm? || es[n].action.Tool?)
    && Shows(es[n].response) != Shows(fs[n].response)
  }

  /** The k-th spans of two runs, of equal events, end alike. */
  ghost predicate Alike(s: Session, u: Session, es: seq<Event>, k: nat)
    requires k <= |es| && k < |s.stamps| && k < |u.stamps|
  {
    if k == 0 then RootsEndAlike(s, s.stamps[0].close, u.stamps[0].close)
    else EndsAlike(es[k - 1], s.stamps[k].close, u.stamps[k].close)
  }

  /** The first of the spans k, ..., n that does not end alike, or n + 1. */
  ghost function FirstUnlike(s: Session, u: Session, es: seq<Event>, k: nat, n: nat): (r: nat)
    requires k <= n + 1 && n <= |es| && n < |s.stamps| && n < |u.stamps|
    ensures k <= r <= n + 1
    decreases n + 1 - k
  {
    if k == n + 1 || !Alike(s, u, es, k) then k else FirstUnlike(s, u, es, k + 1, n)
  }

  lemma {:induction false} FirstUnlikeIs(s: Session, u: Session, es: seq<Event>, k: nat, n: nat)
    requires k <= n + 1 && n <= |es| && n < |s.stamps| && n < |u.stamps|
    ensures var r := FirstUnlike(s, u, es, k, n);
            (forall j :: k <= j < r ==> Alike(s, u, es, j)) && (r <= n ==> !Alike(s, u, es, r))
    decreases n + 1 - k
  {
    hide Alike;
    if k <= n && Alike(s, u, es, k) { FirstUnlikeIs(s, u, es, k + 1, n); }
  }

  /** The rows of equal events agree exactly if they end alike. */
  lemma RowsAgree(h: Host, s: Session, es: seq<Event>, u: Session, fs: seq<Event>, k: nat)
    requires WellStamped(s, es) && WellStamped(u, fs) && s.title == u.title && s.entrypoint == u.entrypoint
    requires k <= |es| && k <= |fs| && (k > 0 ==> es[k - 1] == fs[k - 1])
    ensures Diff.Agree(Rows(h, s, es)[k], Rows(h, u, fs)[k], Diff.Key) <==> Alike(s, u, es, k)
  {
    hide MapSpan, Diff.Agree, EndsAlike, RootsEndAlike;
    if k == 0 {
      RootsAgree(h, s, s.stamps[0], u, u.stamps[0]);
    } else {
      SameEventsAgree(h, es[k - 1], s.trace, s.stamps[k], u.trace, u.stamps[k]);
    }
  }

  /** Two runs of one script that are the same for n events: the diff of their spans
      points at the first span up to there that does not end alike. If there is
      none, it points at the next event if that is where they part in an outcome,
      and at nothing if both runs end there. */
  lemma DiffOfRuns(h: Host, s: Session, es: seq<Event>, u: Session, fs: seq<Event>, n: nat)
    requires WellStamped(s, es) && WellStamped(u, fs) && s.title == u.title && s.entrypoint == u.entrypoint
    requires n <= |es| && n <= |fs| && es[..n] == fs[..n]
    ensures var f := FirstUnlike(s, u, es, 0, n);
            var d := Diff.FirstDivergence(Diff.Alignment(Rows(h, s, es), Rows(h, u, fs), Diff.Key));
            && (f <= n ==> d == Some(f))
            && (f == n + 1 && PartAt(es, fs, n) ==> d == Some(f))
            && (f == n + 1 && n == |es| == |fs| ==> d == None)
            && (f == n + 1 && d.Some? ==> d.value > n)
  {
    hide MapSpan, Diff.Agree, Diff.Alignment, Diff.FirstDivergence, PartAt, Alike, WellStamped, Rows, FirstUnlike;
    RowCount(h, s, es);
    RowCount(h, u, fs);
    PartedWithin(es, fs, n);
    FirstUnlikeIs(s, u, es, 0, n);
    RowsAgreeUpTo(h, s, es, u, fs, n);
    if PartAt(es, fs, n) { PartedRows(h, s, es, u, fs, n); }
    Diff.FirstDivergenceExact(Rows(h, s, es), Rows(h, u, fs), Diff.Key);
  }

  lemma RowCount(h: Host, s: Session, es: seq<Event>)
    requires WellStamped(s, es)
    ensures |s.stamps| == |es| + 1 && |Rows(h, s, es)| == |es| + 1
  {}

  lemma RowsAgreeUpTo(h: Host, s: Session, es: seq<Event>, u: Session, fs: seq<Event>, n: nat)
    requires WellStamped(s, es) && WellStamped(u, fs) && s.title == u.title && s.entrypoint == u.entrypoint
    requires n <= |es| && n <= |fs| && es[..n] == fs[..n]
    ensures forall k :: 0 <= k <= n ==>
              (Diff.Agree(Rows(h, s, es)[k], Rows(h, u, fs)[k], Diff.Key) <==> Alike(s, u, es, k))
  {
    RowCount(h, s, es);
    RowCount(h, u, fs);
    hide Diff.Agree, Alike, WellStamped, Rows;
    forall k | 0 <= k <= n
      ensures Diff.Agree(Rows(h, s, es)[k], Rows(h, u, fs)[k], Diff.Key) <==> Alike(s, u, es, k)
    {
      if k > 0 { assert es[..n][k - 1] == es[k - 1] && fs[..n][k - 1] == fs[k - 1]; }
      RowsAgree(h, s, es, u, fs, k);
    }
  }

  lemma PartedWithin(es: seq<Event>, fs: seq<Event>, n: nat)
    ensures PartAt(es, fs, n) ==> n < |es| && n < |fs|
  {}

  lemma PartedRows(h: Host, s: Session, es: seq<Event>, u: Session, fs: seq<Event>, n: nat)
    requires WellStamped(s, es) && WellStamped(u, fs) && PartAt(es, fs, n)
    ensures !Diff.Agree(Rows(h, s, es)[n + 1], Rows(h, u, fs)[n + 1], Diff.Key)
  {
    hide MapSpan, Diff.Agree;
    OtherResponseDiverges(h, es[n], fs[n], s.trace, s.stamps[n + 1], u.trace, u.stamps[n + 1]);
  }
}
