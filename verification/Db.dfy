/** The trace store: tables keyed by primary key, and runs of writes that stop at the first rejected one. */
module Db {
  import opened Spans
  import Forest

  // Identifiers drawn from the ULID source; every draw is a new one.
  type Ulid = nat

  datatype Project = Project(id: Ulid, name: string)

  datatype Trace = Trace(
    id: TraceId,
    project: Ulid,
    parentTrace: Option<string>,
    branchPoint: Option<string>,
    title: Option<string>,  // the label column
    status: string,
    start: Time,
    end: Option<Time>,
    cost: Option<real>,
    tokensIn: Option<int>,
    tokensOut: Option<int>,
    framework: Option<string>,
    frameworkVersion: Option<string>)

  datatype Message = Message(
    id: Ulid, span: SpanId, at: nat, role: string, content: Option<string>, contentRef: Option<string>,
    toolCallId: Option<string>)

  datatype ToolCall = ToolCall(
    span: SpanId, tool: string, args: Option<string>, argsRef: Option<string>,
    result: Option<string>, resultRef: Option<string>, error: Option<string>)

  datatype CacheRow = CacheRow(
    hash: string, model: Option<string>, response: string, tokensIn: Option<int>, tokensOut: Option<int>,
    captured: Time)

  datatype BpRow = BpRow(
    id: Ulid, project: Ulid, name: Option<string>, dsl: string, enabled: bool, hits: nat,
    lastAt: Option<Time>, lastSpan: Option<SpanId>, lastTrace: Option<TraceId>)

  datatype Tables = Tables(
    projects: seq<Project>,
    traces: map<TraceId, Trace>,
    spans: map<SpanId, Span>,
    messages: map<Ulid, Message>,
    tools: map<SpanId, ToolCall>,
    cache: map<string, CacheRow>,
    bps: map<Ulid, BpRow>)

  const EMPTY := Tables([], map[], map[], map[], map[], map[], map[])

  /** One statement that changes the store. */
  datatype Write =
    | PutProject(project: Project)
    | PutTrace(trace: Trace)
    | PutSpan(span: Span)
    | PutMessage(message: Message)
    | PutTool(tool: ToolCall)
    | PutCache(row: CacheRow)
    | AddBp(bp: BpRow)
    | DeleteBp(id: Ulid)
    | Hit(id: Ulid, spanId: SpanId, traceId: TraceId, when: Time)

  /** spans.started_at and llm_cache.model are NOT NULL in the embedded store. */
  predicate Accepts(w: Write) {
    match w
    case PutSpan(s) => s.start.Some?
    case PutCache(c) => c.model.Some?
    case _ => true
  }

  /** Writers hand payloads over inline. */
  predicate Plain(w: Write) {
    match w
    case PutMessage(m) => m.contentRef == None
    case PutTool(c) => c.argsRef == None && c.resultRef == None
    case _ => true
  }

  function RecordHit(bps: map<Ulid, BpRow>, id: Ulid, spanId: SpanId, traceId: TraceId, when: Time): map<Ulid, BpRow> {
    if id in bps then
      bps[id := bps[id].(hits := bps[id].hits + 1, lastAt := Some(when),
                         lastSpan := Some(spanId), lastTrace := Some(traceId))]
    else bps
  }

  function Apply(db: Tables, w: Write): Tables {
    match w
    case PutProject(p) => db.(projects := db.projects + [p])
    case PutTrace(t) => db.(traces := db.traces[t.id := t])
    case PutSpan(s) => db.(spans := db.spans[s.id := s])
    case PutMessage(m) => db.(messages := db.messages[m.id := m])
    case PutTool(c) => db.(tools := db.tools[c.span := c])
    case PutCache(c) => db.(cache := db.cache[c.hash := c])
    case AddBp(b) => db.(bps := db.bps[b.id := b])
    case DeleteBp(id) => db.(bps := db.bps - {id})
    case Hit(id, s, t, when) => db.(bps := RecordHit(db.bps, id, s, t, when))
  }

  datatype Outcome = Outcome(db: Tables, ok: bool)

  function Run(db: Tables, ws: seq<Write>): Outcome
    decreases |ws|
  {
    if |ws| == 0 then Outcome(db, true)
    else if !Accepts(ws[0]) then Outcome(db, false)
    else Run(Apply(db, ws[0]), ws[1..])
  }

  predicate AllAccepted(ws: seq<Write>) {
    forall w :: w in ws ==> Accepts(w)
  }

  /** Running a list is running its head part and, if that ends well, the rest. */
  lemma {:induction false} RunJoin(db: Tables, a: seq<Write>, b: seq<Write>)
    ensures Run(db, a + b) == if Run(db, a).ok then Run(Run(db, a).db, b) else Run(db, a)
    decreases |a|
  {
    hide Apply;
    if |a| == 0 {
      assert a + b == b;
    } else {
      assert (a + b)[0] == a[0] && (a + b)[1..] == a[1..] + b;
      if Accepts(a[0]) { RunJoin(Apply(db, a[0]), a[1..], b); }
    }
  }

  lemma {:induction false} RunOk(db: Tables, ws: seq<Write>)
    ensures Run(db, ws).ok <==> AllAccepted(ws)
    decreases |ws|
  {
    hide Apply;
    if |ws| > 0 && Accepts(ws[0]) {
      RunOk(Apply(db, ws[0]), ws[1..]);
      assert forall w :: w in ws <==> w == ws[0] || w in ws[1..];
    }
  }

  /** No project has the name. */
  ghost predicate Unnamed(ps: seq<Project>, name: string) {
    forall p :: p in ps ==> p.name != name
  }

  function ResolveProject(ps: seq<Project>, name: string): (r: Option<Ulid>)
    ensures r.Some? ==> exists p :: p in ps && p.id == r.value && p.name == name
    ensures r.None? ==> Unnamed(ps, name)
  {
    if |ps| == 0 then None else if ps[0].name == name then Some(ps[0].id) else ResolveProject(ps[1..], name)
  }

  /** The enabled breakpoints with their predicates, each once. */
  ghost predicate ListsEnabled(bps: map<Ulid, BpRow>, xs: seq<(Ulid, string)>) {
    && (forall i, j :: 0 <= i < j < |xs| ==> xs[i].0 != xs[j].0)
    && (forall x :: x in xs ==> x.0 in bps && bps[x.0].enabled && bps[x.0].dsl == x.1)
    && (forall id :: id in bps && bps[id].enabled ==> (id, bps[id].dsl) in xs)
  }

  method SelectSpans(spans: map<SpanId, Span>, t: TraceId) returns (xs: seq<Span>)
    requires Keyed(spans)
    ensures StoreOrder(spans, t, xs)
  {
    xs := [];
    var left := spans.Keys;
    while left != {}
      invariant left <= spans.Keys && SortedSpans(xs)
      invariant forall s :: s in xs <==> s.id in spans && s.id !in left && spans[s.id] == s && s.trace == t
    {
      var id :| id in left;
      left := left - {id};
      if spans[id].trace == t {
        Forest.InsertSorts(spans[id], xs);
        ghost var was := xs;
        xs := Forest.InsertSpan(spans[id], xs);
        forall s ensures s in xs <==> s in was || s == spans[id] {
          assert s in xs <==> s in multiset(xs);
        }
      }
    }
  }

  /** The store object: its tables are fields, its methods statements. */
  class Store {
    var projects: seq<Project>
    var traces: map<TraceId, Trace>
    var spans: map<SpanId, Span>
    var messages: map<Ulid, Message>
    var tools: map<SpanId, ToolCall>
    var cache: map<string, CacheRow>
    var bps: map<Ulid, BpRow>
    var nextId: Ulid

    constructor ()
      ensures Snapshot() == EMPTY && nextId == 0
    {
      projects, traces, spans, messages, tools, cache, bps := [], map[], map[], map[], map[], map[], map[];
      nextId := 0;
    }

    function Snapshot(): Tables
      reads this
    {
      Tables(projects, traces, spans, messages, tools, cache, bps)
    }

    method NewId() returns (id: Ulid)
      modifies this`nextId
      ensures id == old(nextId) && nextId == id + 1
    {
      id := nextId;
      nextId := nextId + 1;
    }

    method EnsureProject(name: string) returns (id: Ulid)
      modifies this`projects, this`nextId
      ensures match ResolveProject(old(projects), name)
              case Some(p) => id == p && Snapshot() == old(Snapshot()) && nextId == old(nextId)
              case None =>
                && id == old(nextId) && nextId == id + 1
                && Snapshot() == Apply(old(Snapshot()), PutProject(Project(id, name)))
    {
      var row := ResolveProject(projects, name);
      if row.Some? { return row.value; }
      id := NewId();
      projects := projects + [Project(id, name)];
    }

    method UpsertTrace(t: Trace)
      modifies this`traces
      ensures Snapshot() == Apply(old(Snapshot()), PutTrace(t))
    {
      traces := traces[t.id := t];
    }

    method UpsertSpan(s: Span) returns (ok: bool)
      modifies this`spans
      ensures ok == Accepts(PutSpan(s))
      ensures Snapshot() == if ok then Apply(old(Snapshot()), PutSpan(s)) else old(Snapshot())
    {
      ok := s.start.Some?;
      if ok { spans := spans[s.id := s]; }
    }

    method InsertMessage(m: Message)
      modifies this`messages
      ensures Snapshot() == Apply(old(Snapshot()), PutMessage(m))
    {
      messages := messages[m.id := m];
    }

    method InsertToolCall(c: ToolCall)
      modifies this`tools
      ensures Snapshot() == Apply(old(Snapshot()), PutTool(c))
    {
      tools := tools[c.span := c];
    }

    method UpsertLlmCache(c: CacheRow) returns (ok: bool)
      modifies this`cache
      ensures ok == Accepts(PutCache(c))
      ensures Snapshot() == if ok then Apply(old(Snapshot()), PutCache(c)) else old(Snapshot())
    {
      ok := c.model.Some?;
      if ok { cache := cache[c.hash := c]; }
    }

    method AddBreakpoint(project: Ulid, name: Option<string>, dsl: string) returns (id: Ulid)
      modifies this`bps, this`nextId
      ensures id == old(nextId) && nextId == id + 1
      ensures Snapshot() == Apply(old(Snapshot()), AddBp(BpRow(id, project, name, dsl, true, 0, None, None, None)))
    {
      id := NewId();
      bps := bps[id := BpRow(id, project, name, dsl, true, 0, None, None, None)];
    }

    method DeleteBreakpoint(id: Ulid)
      modifies this`bps
      ensures Snapshot() == Apply(old(Snapshot()), DeleteBp(id))
    {
      bps := bps - {id};
    }

    method RecordBreakpointHit(id: Ulid, spanId: SpanId, traceId: TraceId, when: Time)
      modifies this`bps
      ensures Snapshot() == Apply(old(Snapshot()), Hit(id, spanId, traceId, when))
    {
      if id in bps {
        var b := bps[id];
        bps := bps[id := b.(hits := b.hits + 1, lastAt := Some(when),
                            lastSpan := Some(spanId), lastTrace := Some(traceId))];
      }
    }

    method GetSpans(t: TraceId) returns (xs: seq<Span>)
      requires Keyed(spans)
      ensures StoreOrder(spans, t, xs)
      ensures forall i, j :: 0 <= i < j < |xs| ==>
                match (xs[i].start, xs[j].start)
                case (None, Some(_)) => true
                case (Some(_), None) => false
                case (Some(x), Some(y)) => x < y || (x == y && xs[i].id < xs[j].id)
                case (None, None) => xs[i].id < xs[j].id
    {
      xs := SelectSpans(spans, t);
    }

    /** The last assistant message of a span, if it has any. */
    method LastAssistant(span: SpanId) returns (r: Option<Ulid>)
      ensures match r
              case Some(id) => IsLastAssistant(Snapshot(), span, id)
              case None => forall k :: k in messages && messages[k].span == span ==> messages[k].role != "assistant"
      ensures r.Some? ==> r.value in messages && messages[r.value].span == span && messages[r.value].role == "assistant"
      ensures forall k :: r.Some? && k in messages && messages[k].span == span && messages[k].role == "assistant" ==>
                messages[k].at <= messages[r.value].at
                && (messages[k].at == messages[r.value].at ==> messages[k].id <= messages[r.value].id)
    {
      r := None;
      var left := messages.Keys;
      while left != {}
        invariant left <= messages.Keys
        invariant match r
                  case Some(id) =>
                    && id in messages && messages[id].span == span && messages[id].role == "assistant"
                    && (forall k :: k in messages && k !in left && messages[k].span == span &&
                                    messages[k].role == "assistant" ==>
                          k == id || !SaidLater(messages[k], messages[id]))
                  case None =>
                    forall k :: k in messages && k !in left && messages[k].span == span ==>
                      messages[k].role != "assistant"
      {
        var k :| k in left;
        left := left - {k};
        if messages[k].span == span && messages[k].role == "assistant" {
          if r.None? || SaidLater(messages[k], messages[r.value]) { r := Some(k); }
        }
      }
    }

    method EnabledBreakpoints() returns (xs: seq<(Ulid, string)>)
      ensures ListsEnabled(bps, xs)
    {
      xs := [];
      var left := bps.Keys;
      while left != {}
        invariant left <= bps.Keys
        invariant forall i, j :: 0 <= i < j < |xs| ==> xs[i].0 != xs[j].0
        invariant forall x :: x in xs ==> x.0 in bps && x.0 !in left && bps[x.0].enabled && bps[x.0].dsl == x.1
        invariant forall id :: id in bps && id !in left && bps[id].enabled ==> (id, bps[id].dsl) in xs
      {
        var id :| id in left;
        left := left - {id};
        if bps[id].enabled { xs := xs + [(id, bps[id].dsl)]; }
      }
    }
  }

  // ---------- readers ----------

  /** Each span is stored under its own id. */
  ghost predicate Keyed(spans: map<SpanId, Span>) {
    forall id :: id in spans ==> spans[id].id == id
  }

  /** The spans of a trace as the store returns them: by start time, then id. */
  ghost predicate StoreOrder(spans: map<SpanId, Span>, t: TraceId, xs: seq<Span>) {
    && SortedSpans(xs)
    && (forall s :: s in xs <==> s.id in spans && spans[s.id] == s && s.trace == t)
  }

  /** One message comes after another in a conversation. */
  predicate SaidLater(a: Message, b: Message) { a.at > b.at || (a.at == b.at && a.id > b.id) }

  ghost predicate IsLastAssistant(db: Tables, span: SpanId, id: Ulid) {
    && id in db.messages && db.messages[id].span == span && db.messages[id].role == "assistant"
    && (forall k :: k in db.messages && db.messages[k].span == span && db.messages[k].role == "assistant" ==>
          k == id || !SaidLater(db.messages[k], db.messages[id]))
  }

  // ---------- referential integrity ----------

  ghost predicate HasProject(ps: seq<Project>, id: Ulid) {
    exists p :: p in ps && p.id == id
  }

  /** Each row's parent row exists. */
  ghost predicate Integrity(db: Tables) {
    && (forall t :: t in db.traces ==> HasProject(db.projects, db.traces[t].project))
    && (forall s :: s in db.spans ==> db.spans[s].trace in db.traces)
    && (forall m :: m in db.messages ==> db.messages[m].span in db.spans)
    && (forall c :: c in db.tools ==> db.tools[c].span in db.spans)
  }

  /** The row a write refers to is there. */
  ghost predicate ParentThere(db: Tables, w: Write) {
    match w
    case PutTrace(t) => HasProject(db.projects, t.project)
    case PutSpan(s) => s.trace in db.traces
    case PutMessage(m) => m.span in db.spans
    case PutTool(c) => c.span in db.spans
    case _ => true
  }

  /** Each write of the list finds its parent row when its turn comes. */
  ghost predicate ParentsFirst(db: Tables, ws: seq<Write>)
    decreases |ws|
  {
    |ws| == 0 || (ParentThere(db, ws[0]) && ParentsFirst(Apply(db, ws[0]), ws[1..]))
  }

  lemma WriteKeepsIntegrity(db: Tables, w: Write)
    requires Integrity(db) && ParentThere(db, w)
    ensures Integrity(Apply(db, w))
  {
    if w.PutProject? {
      ProjectsKeepIntegrity(db, w.project);
    } else {
      hide HasProject;
    }
  }

  lemma ProjectsKeepIntegrity(db: Tables, p: Project)
    requires Integrity(db)
    ensures Integrity(db.(projects := db.projects + [p]))
  {
    forall id | HasProject(db.projects, id) ensures HasProject(db.projects + [p], id) {
      var q :| q in db.projects && q.id == id;
      assert q in db.projects + [p];
    }
  }

  /** After every prefix of such a run, finished or aborted, no row is orphaned. */
  lemma {:induction false} PrefixesKeepIntegrity(db: Tables, ws: seq<Write>, k: nat)
    requires Integrity(db) && ParentsFirst(db, ws) && k <= |ws|
    ensures Integrity(Run(db, ws[..k]).db)
    decreases k
  {
    hide Apply, Integrity, ParentThere;
    if k > 0 && Accepts(ws[0]) {
      WriteKeepsIntegrity(db, ws[0]);
      assert ws[..k][1..] == ws[1..][..k - 1];
      PrefixesKeepIntegrity(Apply(db, ws[0]), ws[1..], k - 1);
    }
  }
}
