/** The ingestion loops, run against the store: their effect is that of the request's list of writes. */
module IngestRun {
  import opened Spans
  import opened Db
  import opened Ingest
  import BP = Breakpoint
  import Lexer

  lemma {:induction false} MessagesAccepted(db: Tables, ms: seq<Message>)
    ensures Run(db, MessageWrites(ms)).ok
    decreases |ms|
  {
    if |ms| > 0 { MessagesAccepted(Apply(db, PutMessage(ms[0])), ms[1..]); }
  }

  lemma {:induction false} HitsAccepted(db: Tables, env: Env, bps: seq<(Ulid, BP.Expr)>, sp: OtelSpan)
    ensures Run(db, HitWrites(env, bps, sp)).ok
    decreases |bps|
  {
    hide Matches;
    if |bps| > 0 {
      var h := Hit(bps[0].0, sp.id, sp.trace, env.now);
      HitsAccepted(Apply(db, h), env, bps[1..], sp);
      HitsAccepted(db, env, bps[1..], sp);
      assert ([h] + HitWrites(env, bps[1..], sp))[1..] == HitWrites(env, bps[1..], sp);
    }
  }

  lemma RunOne(db: Tables, w: Write)
    ensures Run(db, [w]) == if Accepts(w) then Outcome(Apply(db, w), true) else Outcome(db, false)
  {
    hide Apply, Accepts;
    if Accepts(w) { assert Run(Apply(db, w), [w][1..]) == Outcome(Apply(db, w), true); }
  }

  method ExtractMessages(a: AttrMap, span: SpanId, store: Store) returns (out: seq<Message>)
    modifies store`nextId
    ensures out == MessagesOf(a, span, old(store.nextId))
    ensures store.nextId == old(store.nextId) + |out|
  {
    out := ExtractFrom(a, span, "gen_ai.prompt", "user", 0, store);
    var more := ExtractFrom(a, span, "gen_ai.completion", "assistant", |out|, store);
    out := out + more;
  }

  method ExtractFrom(a: AttrMap, span: SpanId, prefix: string, role: string, at: nat,
                     store: Store) returns (out: seq<Message>)
    modifies store`nextId
    ensures out == MessagesFrom(a, span, prefix, role, 0, at, old(store.nextId))
    ensures store.nextId == old(store.nextId) + |out|
  {
    out := [];
    var i := 0;
    while true
      invariant |out| == i && store.nextId == old(store.nextId) + i
      invariant out + MessagesFrom(a, span, prefix, role, i, at + i, store.nextId)
             == MessagesFrom(a, span, prefix, role, 0, at, old(store.nextId))
      decreases |KeysFrom(a, prefix, i)|
    {
      var content := GetStr(a, At(prefix, i, "content"));
      if content.None? { break; }
      KeysShrink(a, prefix, i);
      SubsetSmaller(KeysFrom(a, prefix, i + 1), KeysFrom(a, prefix, i));
      var said := GetStr(a, At(prefix, i, "role"));
      var id := store.NewId();
      var m := Message(id, span, at + i, if Truthy(said) then said.value else role, content, None,
                       GetStr(a, At(prefix, i, "tool_call_id")));
      ghost var rest := MessagesFrom(a, span, prefix, role, i + 1, at + i + 1, store.nextId);
      assert (out + [m]) + rest == out + ([m] + rest);
      out := out + [m];
      i := i + 1;
    }
    assert out + [] == out;
  }

  method InsertMessages(store: Store, ms: seq<Message>)
    modifies store`messages
    ensures Run(old(store.Snapshot()), MessageWrites(ms)) == Outcome(store.Snapshot(), true)
  {
    var n := 0;
    while n < |ms|
      invariant n <= |ms|
      invariant Run(store.Snapshot(), MessageWrites(ms[n..])) == Run(old(store.Snapshot()), MessageWrites(ms))
    {
      hide Apply;
      assert ms[n..][0] == ms[n] && ms[n..][1..] == ms[n + 1..];
      store.InsertMessage(ms[n]);
      n := n + 1;
    }
    MessagesAccepted(old(store.Snapshot()), ms);
  }

  method DetectHits(store: Store, env: Env, sp: OtelSpan)
    modifies store`bps
    ensures Run(old(store.Snapshot()), HitWrites(env, env.bps, sp)) == Outcome(store.Snapshot(), true)
  {
    var n := 0;
    while n < |env.bps|
      invariant n <= |env.bps|
      invariant Run(store.Snapshot(), HitWrites(env, env.bps[n..], sp))
             == Run(old(store.Snapshot()), HitWrites(env, env.bps, sp))
    {
      hide Apply, Matches;
      var b := env.bps[n];
      assert env.bps[n..][0] == b && env.bps[n..][1..] == env.bps[n + 1..];
      if Matches(b.1, env.host, sp) {
        store.RecordBreakpointHit(b.0, sp.id, sp.trace, env.now);
      }
      n := n + 1;
    }
    HitsAccepted(old(store.Snapshot()), env, env.bps, sp);
  }

  /** The writes of one span: the row, its messages, tool call, cache entry and
      breakpoint hits. */
  method IngestSpan(store: Store, env: Env, sp: OtelSpan) returns (ok: bool)
    modifies store
    ensures Run(old(store.Snapshot()), SpanWrites(env, sp, old(store.nextId))) == Outcome(store.Snapshot(), ok)
    ensures ok ==> store.nextId == old(store.nextId) + |MessagesOf(sp.attrs, sp.id, old(store.nextId))|
    ensures store.projects == old(store.projects)
  {
    hide Apply, MapSpan, MessagesOf, ToolOf, CacheOf, HitWrites, MessageWrites;
    ghost var db0, next := store.Snapshot(), store.nextId;
    var mapped := MapSpan(env.host, sp);
    SpanWritesRun(db0, env, sp, next);
    RunOne(db0, PutSpan(mapped));
    ok := store.UpsertSpan(mapped);
    if !ok { return; }
    var ms := ExtractMessages(sp.attrs, mapped.id, store);
    MapSpanId(env.host, sp);
    InsertMessages(store, ms);
    var tc := ToolOf(sp);
    if tc.Some? {
      RunOne(store.Snapshot(), PutTool(tc.value));
      store.InsertToolCall(tc.value);
    }
    var entry := CacheOf(env.host, sp, env.now);
    if entry.Some? {
      RunOne(store.Snapshot(), PutCache(entry.value));
      ok := store.UpsertLlmCache(entry.value);
      if !ok { return; }
    }
    DetectHits(store, env, sp);
  }

  lemma MapSpanId(h: Host, sp: OtelSpan)
    ensures MapSpan(h, sp).id == sp.id && MapSpan(h, sp).trace == sp.trace
  {}

  /** A span's writes are run in five parts, one after the other. */
  lemma SpanWritesRun(db: Tables, env: Env, sp: OtelSpan, next: Ulid)
    ensures Run(db, SpanWrites(env, sp, next)) ==
              var a := Run(db, [PutSpan(MapSpan(env.host, sp))]);
              if !a.ok then a else
              var b := Run(a.db, MessageWrites(MessagesOf(sp.attrs, sp.id, next)));
              if !b.ok then b else
              var c := Run(b.db, ToolWrites(env, sp));
              if !c.ok then c else
              var d := Run(c.db, CacheWrites(env, sp));
              if !d.ok then d else
              Run(d.db, HitWrites(env, env.bps, sp))
  {
    hide Run, MapSpan, MessagesOf, ToolWrites, CacheWrites, HitWrites, MessageWrites;
    var a, b := [PutSpan(MapSpan(env.host, sp))], MessageWrites(MessagesOf(sp.attrs, sp.id, next));
    var c, d, e := ToolWrites(env, sp), CacheWrites(env, sp), HitWrites(env, env.bps, sp);
    RunJoin(db, a + b + c + d, e);
    RunJoin(db, a + b + c, d);
    RunJoin(db, a + b, c);
    RunJoin(db, a, b);
  }

  // ---------- one trace ----------

  /** The trace row of a group, from accumulators updated span by span. */
  method AggregateGroup(env: Env, o: Origin, g: Bucket) returns (row: Trace)
    ensures row == TraceRow(env, o, g)
  {
    hide AddTotals;
    var t := Totals(None, 0, false, 0.0, 0, 0, None, None, None);
    var n := 0;
    while n < |g.spans|
      invariant n <= |g.spans|
      invariant t == TotalsOf(env.host, g.spans, n)
    {
      t := AddTotals(t, env.host, g.spans[n]);
      n := n + 1;
    }
    row := Trace(
      g.trace, o.project, t.parentTrace, t.branchPoint, t.root,
      if t.anyError then "failed" else "completed",
      if t.start.Some? then t.start.value else env.now,
      NonZero(t.end),
      if t.cost > 0.0 then Some(t.cost) else None,
      if t.tokensIn > 0 then Some(t.tokensIn) else None,
      if t.tokensOut > 0 then Some(t.tokensOut) else None,
      o.framework, o.version);
  }

  method IngestGroup(store: Store, env: Env, o: Origin, g: Bucket) returns (ok: bool, count: nat)
    modifies store
    ensures Run(old(store.Snapshot()), GroupWrites(env, o, g, old(store.nextId))) == Outcome(store.Snapshot(), ok)
    ensures ok ==> store.nextId == NextAfter(g.spans, old(store.nextId)) && count == |g.spans|
    ensures store.projects == old(store.projects)
  {
    hide Apply, TraceRow, SpansWrites;
    ghost var db0 := store.Snapshot();
    var row := AggregateGroup(env, o, g);
    RunOne(db0, PutTrace(row));
    RunJoin(db0, [PutTrace(row)], SpansWrites(env, g.spans, store.nextId));
    store.UpsertTrace(row);
    ok, count := IngestSpans(store, env, g.spans);
  }

  method IngestSpans(store: Store, env: Env, spans: seq<OtelSpan>) returns (ok: bool, count: nat)
    modifies store
    ensures Run(old(store.Snapshot()), SpansWrites(env, spans, old(store.nextId))) == Outcome(store.Snapshot(), ok)
    ensures ok ==> store.nextId == NextAfter(spans, old(store.nextId)) && count == |spans|
    ensures store.projects == old(store.projects)
  {
    hide Apply, SpanWrites, MessagesOf;
    ghost var db0, next := store.Snapshot(), store.nextId;
    count := 0;
    assert spans[0..] == spans;
    while count < |spans|
      invariant count <= |spans|
      invariant store.projects == old(store.projects)
      invariant Run(store.Snapshot(), SpansWrites(env, spans[count..], store.nextId))
             == Run(db0, SpansWrites(env, spans, next))
      invariant NextAfter(spans[count..], store.nextId) == NextAfter(spans, next)
    {
      ghost var before, id, rest := store.Snapshot(), store.nextId, spans[count + 1..];
      var sp := spans[count];
      assert spans[count..][0] == sp && spans[count..][1..] == rest;
      RunJoin(before, SpanWrites(env, sp, id), SpansWrites(env, rest, id + |MessagesOf(sp.attrs, sp.id, id)|));
      ok := IngestSpan(store, env, sp);
      if !ok { return; }
      count := count + 1;
    }
    ok := true;
  }

  // ---------- grouping ----------

  method GroupScope(gs: seq<Bucket>, scope: seq<OtelSpan>, ghost all: seq<OtelSpan>, ghost done: nat)
    returns (more: seq<Bucket>)
    requires done + |scope| <= |all| && all[done..done + |scope|] == scope && gs == Grouped(all, done)
    ensures more == Grouped(all, done + |scope|)
  {
    hide AddSpan;
    more := gs;
    var j := 0;
    while j < |scope|
      invariant j <= |scope| && more == Grouped(all, done + j)
    {
      assert all[done + j] == all[done..done + |scope|][j];
      more := AddSpan(more, scope[j]);
      j := j + 1;
    }
  }

  method GroupByTrace(r: Resource) returns (gs: seq<Bucket>)
    ensures gs == Buckets(r)
  {
    hide Grouped;
    gs := [];
    var i := 0;
    ghost var all := Flatten(r.scopes);
    ghost var done: nat := 0;
    NothingGrouped(all);
    assert r.scopes[0..] == r.scopes && all[0..] == all;
    while i < |r.scopes|
      invariant i <= |r.scopes| && done <= |all|
      invariant all[done..] == Flatten(r.scopes[i..]) && gs == Grouped(all, done)
    {
      var scope := r.scopes[i];
      assert r.scopes[i..][0] == scope && r.scopes[i..][1..] == r.scopes[i + 1..];
      FlattenTurn(all, done, scope, Flatten(r.scopes[i + 1..]));
      gs := GroupScope(gs, scope, all, done);
      done := done + |scope|;
      i := i + 1;
    }
    assert r.scopes[i..] == [] && all[done..] == [];
  }

  lemma NothingGrouped(all: seq<OtelSpan>)
    ensures Grouped(all, 0) == []
  {}

  lemma FlattenTurn(all: seq<OtelSpan>, done: nat, scope: seq<OtelSpan>, rest: seq<OtelSpan>)
    requires done <= |all| && all[done..] == scope + rest
    ensures done + |scope| <= |all| && all[done..done + |scope|] == scope && all[done + |scope|..] == rest
  {
    assert all[done..done + |scope|] == all[done..][..|scope|];
    assert all[done + |scope|..] == all[done..][|scope|..];
  }

  method IngestResource(store: Store, env: Env, o: Origin, gs: seq<Bucket>) returns (ok: bool, count: nat)
    modifies store
    ensures Run(old(store.Snapshot()), GroupsWrites(env, o, gs, old(store.nextId))) == Outcome(store.Snapshot(), ok)
    ensures ok ==> store.nextId == NextAfterGroups(gs, old(store.nextId)) && count == BucketTotal(gs)
    ensures store.projects == old(store.projects)
  {
    hide Apply, GroupWrites;
    ghost var db0, next := store.Snapshot(), store.nextId;
    count := 0;
    var n := 0;
    assert gs[0..] == gs;
    while n < |gs|
      invariant n <= |gs|
      invariant store.projects == old(store.projects)
      invariant Run(store.Snapshot(), GroupsWrites(env, o, gs[n..], store.nextId))
             == Run(db0, GroupsWrites(env, o, gs, next))
      invariant NextAfterGroups(gs[n..], store.nextId) == NextAfterGroups(gs, next)
      invariant count + BucketTotal(gs[n..]) == BucketTotal(gs)
    {
      ghost var before, id, rest := store.Snapshot(), store.nextId, gs[n + 1..];
      var g := gs[n];
      assert gs[n..][0] == g && gs[n..][1..] == rest;
      RunJoin(before, GroupWrites(env, o, g, id), GroupsWrites(env, o, rest, NextAfter(g.spans, id)));
      var c;
      ok, c := IngestGroup(store, env, o, g);
      if !ok { return; }
      count := count + c;
      n := n + 1;
    }
    ok := true;
  }

  function BucketTotal(gs: seq<Bucket>): nat {
    if |gs| == 0 then 0 else |gs[0].spans| + BucketTotal(gs[1..])
  }

  // ---------- grouping conserves spans ----------

  lemma {:induction false} AddSpanTotal(gs: seq<Bucket>, sp: OtelSpan)
    ensures BucketTotal(AddSpan(gs, sp)) == BucketTotal(gs) + 1
  {
    if |gs| > 0 && gs[0].trace != sp.trace { AddSpanTotal(gs[1..], sp); }
  }

  /** No span is lost or doubled by the grouping. */
  lemma {:induction false} GroupingConserves(spans: seq<OtelSpan>, n: nat)
    requires n <= |spans|
    ensures BucketTotal(Grouped(spans, n)) == n
  {
    if n > 0 {
      GroupingConserves(spans, n - 1);
      AddSpanTotal(Grouped(spans, n - 1), spans[n - 1]);
    }
  }

  // ---------- one request ----------

  /** The enabled breakpoints that parse, with their expressions. */
  function Compiled(xs: seq<(Ulid, string)>, ch: Lexer.Chars): seq<(Ulid, BP.Expr)> {
    if |xs| == 0 then []
    else
      var e := Lexer.ParseSource(Lexer.Python, xs[0].1, ch);
      if e.Ok? then [(xs[0].0, e.value)] + Compiled(xs[1..], ch) else Compiled(xs[1..], ch)
  }

  method CompileBreakpoints(store: Store, ch: Lexer.Chars) returns (out: seq<(Ulid, BP.Expr)>,
                            ghost xs: seq<(Ulid, string)>)
    ensures ListsEnabled(store.bps, xs) && out == Compiled(xs, ch)
  {
    var rows := store.EnabledBreakpoints();
    xs := rows;
    out := [];
    var n := 0;
    while n < |rows|
      invariant n <= |rows|
      invariant out + Compiled(rows[n..], ch) == Compiled(rows, ch)
    {
      assert rows[n..][0] == rows[n] && rows[n..][1..] == rows[n + 1..];
      var toks := Lexer.Lex(Lexer.Python, rows[n].1, ch);
      if toks.Ok? {
        var e := BP.Parse(toks.value);
        if e.Ok? {
          ghost var rest := Compiled(rows[n + 1..], ch);
          assert (out + [(rows[n].0, e.value)]) + rest == out + ([(rows[n].0, e.value)] + rest);
          out := out + [(rows[n].0, e.value)];
        }
      }
      n := n + 1;
    }
  }

  /** Ingesting a request runs its writes up to the first rejected one; when
      none is, the count returned is the number of spans in the request. */
  method IngestRequest(store: Store, host: Host, now: Time, req: Request) returns (count: Option<nat>, ghost env: Env)
    modifies store
    ensures env.host == host && env.now == now
    ensures exists xs :: ListsEnabled(old(store.bps), xs) && env.bps == Compiled(xs, host.chars)
    ensures Run(old(store.Snapshot()), RequestWrites(env, req, old(store.projects), old(store.nextId)))
         == Outcome(store.Snapshot(), count.Some?)
    ensures count.Some? ==> count.value == SpanCount(req)
  {
    hide Apply, GroupsWrites, Buckets, ProjectName, OriginOf, ResolveProject;
    ghost var db0, next, ps := store.Snapshot(), store.nextId, store.projects;
    var bps, xs := CompileBreakpoints(store, host.chars);
    var batch := Env(host, bps, now);
    env := batch;
    var total := 0;
    var n := 0;
    assert req[0..] == req;
    while n < |req|
      invariant n <= |req|
      invariant Run(store.Snapshot(), RequestWrites(env, req[n..], store.projects, store.nextId))
             == Run(db0, RequestWrites(env, req, ps, next))
      invariant total + SpanCount(req[n..]) == SpanCount(req)
    {
      ghost var before, id, known, rest := store.Snapshot(), store.nextId, store.projects, req[n + 1..];
      var rs := req[n];
      assert req[n..][0] == rs && req[n..][1..] == rest;
      var project := store.EnsureProject(ProjectName(rs.attrs));
      var gs := GroupByTrace(rs);
      RequestTurn(before, env, rs, rest, req[n..], known, id, store.Snapshot(), project, store.nextId);
      GroupingConserves(Flatten(rs.scopes), |Flatten(rs.scopes)|);
      assert BucketTotal(gs) == |Flatten(rs.scopes)| by { BucketsTotal(rs); }
      var ok, c := IngestResource(store, batch, OriginOf(rs, project), gs);
      if !ok { return None, env; }
      total := total + c;
      n := n + 1;
    }
    count := Some(total);
  }

  lemma BucketsTotal(r: Resource)
    ensures BucketTotal(Buckets(r)) == |Flatten(r.scopes)|
  {
    GroupingConserves(Flatten(r.scopes), |Flatten(r.scopes)|);
  }

  /** The writes of a request split off those of its first resource. */
  lemma RequestTurn(db: Tables, env: Env, rs: Resource, rest: Request, req: Request, ps: seq<Project>, next: Ulid,
                    db': Tables, project: Ulid, next': Ulid)
    requires |req| > 0 && req[0] == rs && req[1..] == rest && db.projects == ps
    requires match ResolveProject(ps, ProjectName(rs.attrs))
             case Some(p) => project == p && db' == db && next' == next
             case None =>
               && project == next && next' == next + 1
               && db' == Apply(db, PutProject(Project(next, ProjectName(rs.attrs))))
    ensures var gs := Buckets(rs);
            var r := Run(db', GroupsWrites(env, OriginOf(rs, project), gs, next'));
            Run(db, RequestWrites(env, req, ps, next)) ==
              if r.ok then Run(r.db, RequestWrites(env, rest, db'.projects, NextAfterGroups(gs, next'))) else r
  {
    hide GroupsWrites, Buckets, ProjectName, OriginOf, ResolveProject, NextAfterGroups;
    var gs := Buckets(rs);
    var mine := GroupsWrites(env, OriginOf(rs, project), gs, next');
    var others := RequestWrites(env, rest, db'.projects, NextAfterGroups(gs, next'));
    RunJoin(db', mine, others);
    if ResolveProject(ps, ProjectName(rs.attrs)).None? {
      var p := PutProject(Project(next, ProjectName(rs.attrs)));
      assert [p] + mine + others == [p] + (mine + others);
      RunJoin(db, [p], mine + others);
      RunOne(db, p);
    }
  }
}
