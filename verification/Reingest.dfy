/**
 Sending the same batch twice: the second time changes no project, trace,
 span, tool call or cache entry, also when the batch is cut short.
 */
module Reingest {
  import opened Spans
  import opened Db
  import opened Ingest
  import opened IngestLaws

  predicate IsData(w: Write) { w.PutTrace? || w.PutSpan? || w.PutTool? || w.PutCache? }

  /** The trace, span, tool and cache rows that are written before the first
      rejected write. */
  function Landed(ws: seq<Write>): seq<Write> {
    if |ws| == 0 || !Accepts(ws[0]) then []
    else if IsData(ws[0]) then [ws[0]] + Landed(ws[1..])
    else Landed(ws[1..])
  }

  /** The projects created before the first rejected write. */
  function LandedProjects(ws: seq<Write>): seq<Project> {
    if |ws| == 0 || !Accepts(ws[0]) then []
    else if ws[0].PutProject? then [ws[0].project] + LandedProjects(ws[1..])
    else LandedProjects(ws[1..])
  }

  lemma {:induction false} LandedJoin(a: seq<Write>, b: seq<Write>)
    ensures Landed(a + b) == if AllAccepted(a) then Landed(a) + Landed(b) else Landed(a)
    ensures LandedProjects(a + b) == if AllAccepted(a) then LandedProjects(a) + LandedProjects(b) else LandedProjects(a)
    ensures AllAccepted(a + b) <==> AllAccepted(a) && AllAccepted(b)
  {
    hide Accepts, IsData;
    if |a| == 0 {
      assert a + b == b;
    } else {
      assert (a + b)[0] == a[0] && (a + b)[1..] == a[1..] + b;
      LandedJoin(a[1..], b);
      assert a == [a[0]] + a[1..];
    }
  }

  /** Both lists leave the same rows and end the same way. */
  ghost predicate SameEffect(x: seq<Write>, y: seq<Write>) {
    Landed(x) == Landed(y) && (AllAccepted(x) <==> AllAccepted(y))
  }

  lemma SameJoin(a: seq<Write>, b: seq<Write>, c: seq<Write>, d: seq<Write>)
    requires SameEffect(a, b) && (AllAccepted(a) ==> SameEffect(c, d))
    ensures SameEffect(a + c, b + d)
  {
    hide Landed, AllAccepted;
    LandedJoin(a, c);
    LandedJoin(b, d);
  }

  lemma {:induction false} Silent(ws: seq<Write>)
    requires forall w :: w in ws ==> w.PutMessage? || w.Hit?
    ensures Landed(ws) == [] && LandedProjects(ws) == [] && AllAccepted(ws)
  {
    if |ws| > 0 {
      assert ws[0] in ws;
      Silent(ws[1..]);
    }
  }

  lemma {:induction false} NoProjects(ws: seq<Write>)
    requires forall w :: w in ws ==> !w.PutProject?
    ensures LandedProjects(ws) == []
  {
    if |ws| > 0 {
      assert ws[0] in ws;
      NoProjects(ws[1..]);
    }
  }

  // ---------- two compilations of one batch ----------

  lemma SpanSame(env1: Env, env2: Env, sp: OtelSpan, n1: Ulid, n2: Ulid)
    requires env1.host == env2.host
    ensures SameEffect(SpanWrites(env1, sp, n1), SpanWrites(env2, sp, n2))
  {
    var row := [PutSpan(MapSpan(env1.host, sp))];
    SplitSpan(env1, sp, n1);
    SplitSpan(env2, sp, n2);
    assert AllAccepted(row) ==> sp.start != 0 by {
      assert row[0] in row;
      assert MapSpan(env1.host, sp).start == NonZero(sp.start);
    }
    hide MapSpan, MessagesOf, ToolOf, HitWrites, MessageWrites, SpanWrites, Landed, AllAccepted;
    MiddleSame(env1, env2, sp, n1, n2);
    SameJoin(row, row, RestOf(env1, sp, n1), RestOf(env2, sp, n2));
  }

  function RestOf(env: Env, sp: OtelSpan, next: Ulid): seq<Write> {
    MessageWrites(MessagesOf(sp.attrs, sp.id, next))
    + (ToolWrites(env, sp) + CacheWrites(env, sp) + HitWrites(env, env.bps, sp))
  }

  lemma SplitSpan(env: Env, sp: OtelSpan, next: Ulid)
    ensures SpanWrites(env, sp, next) == [PutSpan(MapSpan(env.host, sp))] + RestOf(env, sp, next)
  {
    hide MapSpan, MessagesOf, ToolWrites, CacheWrites, HitWrites, MessageWrites;
  }

  lemma MiddleSame(env1: Env, env2: Env, sp: OtelSpan, n1: Ulid, n2: Ulid)
    requires env1.host == env2.host
    ensures sp.start != 0 ==> SameEffect(RestOf(env1, sp, n1), RestOf(env2, sp, n2))
  {
    if sp.start != 0 {
      assert CacheOf(env1.host, sp, env1.now) == CacheOf(env2.host, sp, env2.now);
      hide MessagesOf, ToolOf, CacheOf, HitWrites, MessageWrites, SameEffect;
      MessageWritesAre(MessagesOf(sp.attrs, sp.id, n1));
      MessageWritesAre(MessagesOf(sp.attrs, sp.id, n2));
      HitWritesAre(env1, env1.bps, sp);
      HitWritesAre(env2, env2.bps, sp);
      var tc := ToolWrites(env1, sp) + CacheWrites(env1, sp);
      assert tc == ToolWrites(env2, sp) + CacheWrites(env2, sp);
      SilentSame(MessageWrites(MessagesOf(sp.attrs, sp.id, n1)), MessageWrites(MessagesOf(sp.attrs, sp.id, n2)));
      SilentSame(HitWrites(env1, env1.bps, sp), HitWrites(env2, env2.bps, sp));
      SameSelf(tc);
      SameJoin(tc, tc, HitWrites(env1, env1.bps, sp), HitWrites(env2, env2.bps, sp));
      SameJoin(MessageWrites(MessagesOf(sp.attrs, sp.id, n1)), MessageWrites(MessagesOf(sp.attrs, sp.id, n2)),
               tc + HitWrites(env1, env1.bps, sp), tc + HitWrites(env2, env2.bps, sp));
    }
  }

  lemma SameSelf(x: seq<Write>)
    ensures SameEffect(x, x)
  {}

  lemma SilentSame(x: seq<Write>, y: seq<Write>)
    requires forall w :: w in x + y ==> w.PutMessage? || w.Hit?
    ensures SameEffect(x, y)
  {
    assert forall w :: w in x || w in y ==> w in x + y;
    Silent(x);
    Silent(y);
  }

  lemma {:induction false} SpansSame(env1: Env, env2: Env, spans: seq<OtelSpan>, n1: Ulid, n2: Ulid)
    requires env1.host == env2.host
    ensures SameEffect(SpansWrites(env1, spans, n1), SpansWrites(env2, spans, n2))
    decreases |spans|
  {
    hide SpanWrites, MessagesOf, SameEffect;
    if |spans| == 0 {
      SameSelf([]);
    } else {
      var sp := spans[0];
      var m1, m2 := n1 + |MessagesOf(sp.attrs, sp.id, n1)|, n2 + |MessagesOf(sp.attrs, sp.id, n2)|;
      SpanSame(env1, env2, sp, n1, n2);
      SpansSame(env1, env2, spans[1..], m1, m2);
      SameJoin(SpanWrites(env1, sp, n1), SpanWrites(env2, sp, n2),
               SpansWrites(env1, spans[1..], m1), SpansWrites(env2, spans[1..], m2));
    }
  }

  /** Some span of the group carries a start time. */
  ghost predicate Timed(g: Bucket) {
    exists k :: 0 <= k < |g.spans| && g.spans[k].start != 0
  }

  lemma {:induction false} StartKnown(h: Host, spans: seq<OtelSpan>, n: nat, k: nat)
    requires k < n <= |spans| && spans[k].start != 0
    ensures TotalsOf(h, spans, n).start.Some?
  {
    hide MapSpan;
    if k < n - 1 { StartKnown(h, spans, n - 1, k); }
  }

  lemma TraceRowSame(env1: Env, env2: Env, o: Origin, g: Bucket)
    requires env1.host == env2.host && Timed(g)
    ensures TraceRow(env1, o, g) == TraceRow(env2, o, g)
  {
    hide AddTotals;
    var k :| 0 <= k < |g.spans| && g.spans[k].start != 0;
    StartKnown(env1.host, g.spans, |g.spans|, k);
  }

  lemma {:induction false} GroupsSame(env1: Env, env2: Env, o: Origin, gs: seq<Bucket>, n1: Ulid, n2: Ulid)
    requires env1.host == env2.host && forall g :: g in gs ==> Timed(g)
    ensures SameEffect(GroupsWrites(env1, o, gs, n1), GroupsWrites(env2, o, gs, n2))
    decreases |gs|
  {
    hide SpansWrites, TraceRow, SameEffect, Timed;
    if |gs| == 0 {
      SameSelf([]);
    } else {
      var g := gs[0];
      assert g in gs;
      TraceRowSame(env1, env2, o, g);
      var row := [PutTrace(TraceRow(env1, o, g))];
      SameSelf(row);
      SpansSame(env1, env2, g.spans, n1, n2);
      SameJoin(row, row, SpansWrites(env1, g.spans, n1), SpansWrites(env2, g.spans, n2));
      GroupsSame(env1, env2, o, gs[1..], NextAfter(g.spans, n1), NextAfter(g.spans, n2));
      SameJoin(GroupWrites(env1, o, g, n1), GroupWrites(env2, o, g, n2),
               GroupsWrites(env1, o, gs[1..], NextAfter(g.spans, n1)),
               GroupsWrites(env2, o, gs[1..], NextAfter(g.spans, n2)));
    }
  }

  ghost predicate TimedRequest(req: Request) {
    forall r :: r in req ==> forall g :: g in Buckets(r) ==> Timed(g)
  }

  lemma {:induction false} ResolvePrefix(a: seq<Project>, b: seq<Project>, name: string)
    ensures ResolveProject(a + b, name) ==
              if ResolveProject(a, name).Some? then ResolveProject(a, name) else ResolveProject(b, name)
  {
    if |a| == 0 {
      assert a + b == b;
    } else {
      assert (a + b)[1..] == a[1..] + b;
      ResolvePrefix(a[1..], b, name);
    }
  }

  /** Compiled again with the projects the first run left behind, the batch has
      the same effect and creates no project. */
  lemma {:induction false} RequestSame(env1: Env, env2: Env, req: Request, ps1: seq<Project>, n1: Ulid,
                                       ps2: seq<Project>, n2: Ulid)
    requires env1.host == env2.host && TimedRequest(req)
    requires ps2 == ps1 + LandedProjects(RequestWrites(env1, req, ps1, n1))
    ensures SameEffect(RequestWrites(env1, req, ps1, n1), RequestWrites(env2, req, ps2, n2))
    ensures LandedProjects(RequestWrites(env2, req, ps2, n2)) == []
    decreases |req|, 1
  {
    hide GroupsWrites, Buckets, OriginOf, ProjectName, SameEffect, ResolveProject, Timed;
    if |req| == 0 {
      SameSelf([]);
    } else {
      var name, gs := ProjectName(req[0].attrs), Buckets(req[0]);
      assert req[0] in req;
      ResolvePrefix(ps1, LandedProjects(RequestWrites(env1, req, ps1, n1)), name);
      match ResolveProject(ps1, name)
      case Some(id) =>
        ResourceSame(env1, env2, req, ps1, n1, ps2, n2, id);
      case None =>
        var p := Project(n1, name);
        var mine := GroupsWrites(env1, OriginOf(req[0], n1), gs, n1 + 1);
        var others := RequestWrites(env1, req[1..], ps1 + [p], NextAfterGroups(gs, n1 + 1));
        assert [PutProject(p)] + mine + others == [PutProject(p)] + (mine + others);
        CreatedFirst(p, mine + others);
        var more := LandedProjects(mine + others);
        ResolveHead(p, more);
        assert ps2 == (ps1 + [p]) + more;
        ResourceSame(env1, env2, req, ps1 + [p], n1 + 1, ps2, n2, n1);
        SameEffectAfterProject(p, mine + others, RequestWrites(env2, req, ps2, n2));
    }
  }

  lemma CreatedFirst(p: Project, ws: seq<Write>)
    ensures LandedProjects([PutProject(p)] + ws) == [p] + LandedProjects(ws)
  {
    assert ([PutProject(p)] + ws)[1..] == ws;
  }

  lemma ResolveHead(p: Project, more: seq<Project>)
    ensures ResolveProject([p] + more, p.name) == Some(p.id)
  {}

  lemma SameEffectAfterProject(p: Project, x: seq<Write>, y: seq<Write>)
    requires SameEffect(x, y)
    ensures SameEffect([PutProject(p)] + x, y)
  {
    var w := [PutProject(p)] + x;
    assert w[1..] == x;
    assert forall u :: u in w <==> u == PutProject(p) || u in x;
  }

  lemma {:induction false} ResourceSame(env1: Env, env2: Env, req: Request, ps1: seq<Project>, n1: Ulid,
                                        ps2: seq<Project>, n2: Ulid, id: Ulid)
    requires env1.host == env2.host && TimedRequest(req) && |req| > 0
    requires ResolveProject(ps2, ProjectName(req[0].attrs)) == Some(id)
    requires var gs := Buckets(req[0]);
             ps2 == ps1 + LandedProjects(GroupsWrites(env1, OriginOf(req[0], id), gs, n1)
                                         + RequestWrites(env1, req[1..], ps1, NextAfterGroups(gs, n1)))
    ensures var gs := Buckets(req[0]);
            SameEffect(GroupsWrites(env1, OriginOf(req[0], id), gs, n1)
                         + RequestWrites(env1, req[1..], ps1, NextAfterGroups(gs, n1)),
                       RequestWrites(env2, req, ps2, n2))
    ensures LandedProjects(RequestWrites(env2, req, ps2, n2)) == []
    decreases |req|, 0
  {
    hide GroupsWrites, Buckets, OriginOf, ProjectName, ResolveProject, Timed, SameEffect;
    var gs := Buckets(req[0]);
    assert req[0] in req;
    var o := OriginOf(req[0], id);
    var g1, g2 := GroupsWrites(env1, o, gs, n1), GroupsWrites(env2, o, gs, n2);
    var r1 := RequestWrites(env1, req[1..], ps1, NextAfterGroups(gs, n1));
    var r2 := RequestWrites(env2, req[1..], ps2, NextAfterGroups(gs, n2));
    assert RequestWrites(env2, req, ps2, n2) == g2 + r2;
    GroupsSame(env1, env2, o, gs, n1, n2);
    GroupsWritesKinds(env1, o, gs, n1);
    GroupsWritesKinds(env2, o, gs, n2);
    NoProjects(g1);
    NoProjects(g2);
    LandedJoin(g1, r1);
    LandedJoin(g2, r2);
    SameMeans(g1, g2);
    if AllAccepted(g1) {
      assert [] + LandedProjects(r1) == LandedProjects(r1);
      assert forall r :: r in req[1..] ==> r in req;
      RequestSame(env1, env2, req[1..], ps1, NextAfterGroups(gs, n1), ps2, NextAfterGroups(gs, n2));
    }
    SameJoin(g1, g2, r1, r2);
  }

  lemma SameMeans(x: seq<Write>, y: seq<Write>)
    requires SameEffect(x, y)
    ensures Landed(x) == Landed(y) && (AllAccepted(x) <==> AllAccepted(y))
  {}

  // ---------- writing rows twice ----------

  ghost predicate SameRows(a: Tables, b: Tables) {
    a.traces == b.traces && a.spans == b.spans && a.tools == b.tools && a.cache == b.cache
  }

  /** b's rows laid over a's. */
  function Overlay(a: Tables, b: Tables): Tables {
    a.(traces := a.traces + b.traces, spans := a.spans + b.spans, tools := a.tools + b.tools, cache := a.cache + b.cache)
  }

  lemma MapPut<K, V>(m: map<K, V>, k: K, v: V)
    ensures m[k := v] == m + map[k := v]
  {}

  lemma MapNothing<K, V>(m: map<K, V>)
    ensures m + map[] == m
  {}

  lemma MapAssociative<K, V>(a: map<K, V>, b: map<K, V>, c: map<K, V>)
    ensures (a + b) + c == a + (b + c)
  {}

  lemma OverlayOne(db: Tables, w: Write)
    ensures SameRows(Apply(db, w), Overlay(db, Apply(EMPTY, w)))
  {
    MapNothing(db.traces);
    MapNothing(db.spans);
    MapNothing(db.tools);
    MapNothing(db.cache);
    match w
    case PutTrace(t) => MapPut(db.traces, t.id, t);
    case PutSpan(s) => MapPut(db.spans, s.id, s);
    case PutTool(c) => MapPut(db.tools, c.span, c);
    case PutCache(c) => MapPut(db.cache, c.hash, c);
    case _ =>
  }

  lemma OverlayAssociative(a: Tables, b: Tables, c: Tables)
    ensures SameRows(Overlay(Overlay(a, b), c), Overlay(a, Overlay(b, c)))
  {
    MapAssociative(a.traces, b.traces, c.traces);
    MapAssociative(a.spans, b.spans, c.spans);
    MapAssociative(a.tools, b.tools, c.tools);
    MapAssociative(a.cache, b.cache, c.cache);
  }

  lemma OverlayTwice(a: Tables, b: Tables)
    ensures SameRows(Overlay(Overlay(a, b), b), Overlay(a, b))
  {}

  lemma OverlaySame(a: Tables, b: Tables, c: Tables, d: Tables)
    requires SameRows(a, b) && SameRows(c, d)
    ensures SameRows(Overlay(a, c), Overlay(b, d))
  {}

  lemma {:induction false} WritesOverlay(db: Tables, ws: seq<Write>)
    ensures SameRows(ApplyAll(db, ws), Overlay(db, ApplyAll(EMPTY, ws)))
    decreases |ws|
  {
    hide Apply, Overlay;
    if |ws| == 0 {
      OverlayNothing(db);
    } else {
      var one, rest := Apply(EMPTY, ws[0]), ApplyAll(EMPTY, ws[1..]);
      WritesOverlay(Apply(db, ws[0]), ws[1..]);
      WritesOverlay(one, ws[1..]);
      OverlayOne(db, ws[0]);
      OverlaySame(Apply(db, ws[0]), Overlay(db, one), rest, rest);
      OverlayAssociative(db, one, rest);
      OverlaySame(db, db, Overlay(one, rest), ApplyAll(one, ws[1..]));
    }
  }

  lemma OverlayNothing(db: Tables)
    ensures SameRows(db, Overlay(db, EMPTY))
  {}

  lemma KeptAside(db: Tables, w: Write)
    requires !IsData(w)
    ensures SameRows(Apply(db, w), db)
  {}

  lemma KeptProjects(db: Tables, w: Write)
    ensures Apply(db, w).projects == if w.PutProject? then db.projects + [w.project] else db.projects
  {}

  lemma {:induction false} SameStart(a: Tables, b: Tables, ws: seq<Write>)
    requires SameRows(a, b)
    ensures SameRows(ApplyAll(a, ws), ApplyAll(b, ws))
  {
    hide Overlay;
    WritesOverlay(a, ws);
    WritesOverlay(b, ws);
    OverlaySame(a, b, ApplyAll(EMPTY, ws), ApplyAll(EMPTY, ws));
  }

  /** A run, finished or not, leaves the rows that landed. */
  lemma {:induction false} RunLands(db: Tables, ws: seq<Write>)
    ensures SameRows(Run(db, ws).db, ApplyAll(db, Landed(ws)))
    ensures Run(db, ws).db.projects == db.projects + LandedProjects(ws)
    decreases |ws|
  {
    hide Apply, IsData, Accepts, SameRows;
    RowsSelf(db);
    if |ws| > 0 && Accepts(ws[0]) {
      RunLands(Apply(db, ws[0]), ws[1..]);
      KeptProjects(db, ws[0]);
      if !IsData(ws[0]) {
        KeptAside(db, ws[0]);
        SameStart(Apply(db, ws[0]), db, Landed(ws[1..]));
        RowsTransitive(Run(db, ws).db, ApplyAll(Apply(db, ws[0]), Landed(ws[1..])), ApplyAll(db, Landed(ws)));
      }
    }
  }

  lemma RowsSelf(a: Tables)
    ensures SameRows(a, a)
  {}

  lemma RowsTransitive(a: Tables, b: Tables, c: Tables)
    requires SameRows(a, b) && SameRows(b, c)
    ensures SameRows(a, c)
  {}

  /** Ingesting a batch a second time, with the same or other breakpoints, at
      any time and with new ids, leaves projects, traces, spans, tool calls and
      cache as the first time did. */
  lemma ReingestionIdempotent(db: Tables, env1: Env, env2: Env, req: Request, n1: Ulid, n2: Ulid)
    requires env1.host == env2.host && TimedRequest(req)
    ensures var once := Run(db, RequestWrites(env1, req, db.projects, n1));
            var twice := Run(once.db, RequestWrites(env2, req, once.db.projects, n2));
            SameRows(twice.db, once.db) && twice.db.projects == once.db.projects && twice.ok == once.ok
  {
    hide RequestWrites, TimedRequest, Overlay;
    var w1 := RequestWrites(env1, req, db.projects, n1);
    var once := Run(db, w1);
    RunLands(db, w1);
    var w2 := RequestWrites(env2, req, once.db.projects, n2);
    RequestSame(env1, env2, req, db.projects, n1, once.db.projects, n2);
    RunLands(once.db, w2);
    RunOk(db, w1);
    RunOk(once.db, w2);
    SameMeans(w1, w2);
    var l := Landed(w1);
    var f := ApplyAll(EMPTY, l);
    WritesOverlay(db, l);
    WritesOverlay(once.db, l);
    OverlaySame(once.db, Overlay(db, f), f, f);
    OverlayTwice(db, f);
  }
}
