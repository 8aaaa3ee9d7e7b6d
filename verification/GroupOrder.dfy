/** The order in which the groups of a resource are iterated does not show in the data tables. */
module GroupOrder {
  import opened Spans
  import opened Db
  import opened Ingest
  import opened IngestLaws
  import opened TraceTotals
  import HitCounts
  import Sums

  /** The writes of a request whose groups are iterated in the given orders. */
  function OrderedWrites(env: Env, req: Request, orders: seq<seq<Bucket>>, ps: seq<Project>, next: Ulid): seq<Write>
    requires |orders| == |req|
  {
    if |req| == 0 then []
    else
      var name, gs := ProjectName(req[0].attrs), orders[0];
      match ResolveProject(ps, name)
      case Some(id) =>
        GroupsWrites(env, OriginOf(req[0], id), gs, next)
        + OrderedWrites(env, req[1..], orders[1..], ps, NextAfterGroups(gs, next))
      case None =>
        var p := Project(next, name);
        [PutProject(p)]
        + GroupsWrites(env, OriginOf(req[0], next), gs, next + 1)
        + OrderedWrites(env, req[1..], orders[1..], ps + [p], NextAfterGroups(gs, next + 1))
  }

  /** Some order of the groups of each resource, no two of which share a span id. */
  ghost predicate OrdersGroups(req: Request, orders: seq<seq<Bucket>>) {
    && |orders| == |req|
    && forall i :: 0 <= i < |req| ==> multiset(orders[i]) == multiset(Buckets(req[i])) && AllApart(Buckets(req[i]))
  }

  // ---------- lists of writes with the same effect on the rows ----------

  function NewProjects(ws: seq<Write>): seq<Project> {
    if |ws| == 0 then []
    else if ws[0].PutProject? then [ws[0].project] + NewProjects(ws[1..])
    else NewProjects(ws[1..])
  }

  lemma {:induction false} ProjectsJoin(a: seq<Write>, b: seq<Write>)
    ensures NewProjects(a + b) == NewProjects(a) + NewProjects(b)
  {
    if |a| == 0 {
      assert a + b == b;
    } else {
      assert (a + b)[0] == a[0] && (a + b)[1..] == a[1..] + b;
      ProjectsJoin(a[1..], b);
    }
  }

  lemma {:induction false} NoNewProjects(ws: seq<Write>)
    requires forall w :: w in ws ==> !w.PutProject?
    ensures NewProjects(ws) == []
  {
    if |ws| > 0 {
      assert ws[0] in ws;
      NoNewProjects(ws[1..]);
    }
  }

  lemma OneProject(db: Tables, w: Write)
    ensures Apply(db, w).projects == if w.PutProject? then db.projects + [w.project] else db.projects
  {}

  lemma {:induction false} ProjectsAfter(db: Tables, ws: seq<Write>)
    ensures ApplyAll(db, ws).projects == db.projects + NewProjects(ws)
    decreases |ws|
  {
    hide Apply;
    if |ws| > 0 {
      OneProject(db, ws[0]);
      ProjectsAfter(Apply(db, ws[0]), ws[1..]);
    }
  }

  ghost predicate SameRows(v: seq<Write>, w: seq<Write>) {
    && (forall key :: LastWrite(v, key) == LastWrite(w, key))
    && (AllAccepted(v) <==> AllAccepted(w))
    && NewProjects(v) == NewProjects(w)
  }

  lemma AcceptedJoin(a: seq<Write>, b: seq<Write>)
    ensures AllAccepted(a + b) <==> AllAccepted(a) && AllAccepted(b)
  {
    hide Accepts;
    assert forall w :: w in a + b <==> w in a || w in b;
  }

  lemma SameJoin(a: seq<Write>, b: seq<Write>, c: seq<Write>, d: seq<Write>)
    requires SameRows(a, b) && SameRows(c, d)
    ensures SameRows(a + c, b + d)
  {
    hide LastWrite, NewProjects, AllAccepted;
    AcceptedJoin(a, c);
    AcceptedJoin(b, d);
    ProjectsJoin(a, c);
    ProjectsJoin(b, d);
    forall key ensures LastWrite(a + c, key) == LastWrite(b + d, key) {
      LastJoin(a, c, key);
      LastJoin(b, d, key);
    }
  }

  lemma SameTables(db: Tables, v: seq<Write>, w: seq<Write>)
    requires SameRows(v, w)
    ensures Run(db, v).ok == Run(db, w).ok
    ensures Run(db, v).ok ==>
              var a, b := Run(db, v).db, Run(db, w).db;
              a.projects == b.projects && a.traces == b.traces && a.spans == b.spans && a.tools == b.tools
  {
    hide LastWrite, NewProjects, AllAccepted, Row, ApplyAll, Run;
    RunOk(db, v);
    RunOk(db, w);
    if Run(db, v).ok {
      HitCounts.RunIsApplyAll(db, v);
      HitCounts.RunIsApplyAll(db, w);
      ProjectsAfter(db, v);
      ProjectsAfter(db, w);
      forall key ensures Row(ApplyAll(db, v), key) == Row(ApplyAll(db, w), key) {
        RowAfter(db, v, key);
        RowAfter(db, w, key);
      }
      SameRowsSameTables(ApplyAll(db, v), ApplyAll(db, w));
    }
  }

  // ---------- what is accepted ----------

  predicate SpanAccepted(env: Env, sp: OtelSpan) {
    && Accepts(PutSpan(MapSpan(env.host, sp)))
    && (match CacheOf(env.host, sp, env.now) case None => true case Some(c) => Accepts(PutCache(c)))
  }

  lemma SpanAccepts(env: Env, sp: OtelSpan, next: Ulid)
    ensures AllAccepted(SpanWrites(env, sp, next)) <==> SpanAccepted(env, sp)
  {
    hide MapSpan, MessagesOf, ToolOf, CacheOf, HitWrites, MessageWrites;
    MessageWritesAre(MessagesOf(sp.attrs, sp.id, next));
    HitWritesAre(env, env.bps, sp);
    var ws := SpanWrites(env, sp, next);
    assert PutSpan(MapSpan(env.host, sp)) in ws;
    if CacheOf(env.host, sp, env.now).Some? { assert PutCache(CacheOf(env.host, sp, env.now).value) in ws; }
  }

  predicate GroupAccepted(env: Env, spans: seq<OtelSpan>) {
    forall sp :: sp in spans ==> SpanAccepted(env, sp)
  }

  lemma {:induction false} SpansAccept(env: Env, spans: seq<OtelSpan>, next: Ulid)
    ensures AllAccepted(SpansWrites(env, spans, next)) <==> GroupAccepted(env, spans)
    decreases |spans|
  {
    hide SpanWrites, MessagesOf, SpanAccepted, AllAccepted;
    if |spans| == 0 {
      NothingToAccept();
    } else {
      var id := next + |MessagesOf(spans[0].attrs, spans[0].id, next)|;
      SpanAccepts(env, spans[0], next);
      SpansAccept(env, spans[1..], id);
      AcceptedJoin(SpanWrites(env, spans[0], next), SpansWrites(env, spans[1..], id));
      assert forall sp :: sp in spans <==> sp == spans[0] || sp in spans[1..];
    }
  }

  lemma NothingToAccept()
    ensures AllAccepted([])
  {}

  lemma {:induction false} GroupsAccept(env: Env, o: Origin, gs: seq<Bucket>, next: Ulid)
    ensures AllAccepted(GroupsWrites(env, o, gs, next)) <==> forall g :: g in gs ==> GroupAccepted(env, g.spans)
    decreases |gs|
  {
    hide SpansWrites, TraceRow, GroupAccepted;
    if |gs| > 0 {
      var row, id := PutTrace(TraceRow(env, o, gs[0])), NextAfter(gs[0].spans, next);
      SpansAccept(env, gs[0].spans, next);
      GroupsAccept(env, o, gs[1..], id);
      AcceptedJoin([row], SpansWrites(env, gs[0].spans, next));
      AcceptedJoin(GroupWrites(env, o, gs[0], next), GroupsWrites(env, o, gs[1..], id));
      assert forall g :: g in gs <==> g == gs[0] || g in gs[1..];
    }
  }

  // ---------- how many ids are drawn ----------

  lemma {:induction false} SameLength(a: AttrMap, span: SpanId, prefix: string, role: string, i: nat,
                                      at: nat, next: Ulid, at2: nat, next2: Ulid)
    ensures |MessagesFrom(a, span, prefix, role, i, at, next)| == |MessagesFrom(a, span, prefix, role, i, at2, next2)|
    decreases |KeysFrom(a, prefix, i)|
  {
    if GetStr(a, At(prefix, i, "content")).Some? {
      KeysShrink(a, prefix, i);
      SubsetSmaller(KeysFrom(a, prefix, i + 1), KeysFrom(a, prefix, i));
      SameLength(a, span, prefix, role, i + 1, at + 1, next + 1, at2 + 1, next2 + 1);
    }
  }

  function MessageCount(sp: OtelSpan): int { |MessagesOf(sp.attrs, sp.id, 0)| }

  lemma CountFixed(sp: OtelSpan, next: Ulid)
    ensures |MessagesOf(sp.attrs, sp.id, next)| == MessageCount(sp)
  {
    hide MessagesFrom;
    SameLength(sp.attrs, sp.id, "gen_ai.prompt", "user", 0, 0, next, 0, 0);
    var n := |MessagesFrom(sp.attrs, sp.id, "gen_ai.prompt", "user", 0, 0, next)|;
    SameLength(sp.attrs, sp.id, "gen_ai.completion", "assistant", 0, n, next + n, n, n);
  }

  function GroupCount(g: Bucket): int { Sums.Sum(g.spans, MessageCount) }

  lemma {:induction false} NextAfterIs(spans: seq<OtelSpan>, next: Ulid)
    ensures NextAfter(spans, next) == next + Sums.Sum(spans, MessageCount)
    decreases |spans|
  {
    hide MessagesOf;
    if |spans| > 0 {
      CountFixed(spans[0], next);
      NextAfterIs(spans[1..], next + |MessagesOf(spans[0].attrs, spans[0].id, next)|);
    }
  }

  lemma {:induction false} NextAfterGroupsIs(gs: seq<Bucket>, next: Ulid)
    ensures NextAfterGroups(gs, next) == next + Sums.Sum(gs, GroupCount)
    decreases |gs|
  {
    if |gs| > 0 {
      NextAfterIs(gs[0].spans, next);
      NextAfterGroupsIs(gs[1..], NextAfter(gs[0].spans, next));
    }
  }

  // ---------- one resource ----------

  lemma Twice<T>(xs: seq<T>, i: nat, j: nat)
    requires i < j < |xs| && xs[i] == xs[j]
    ensures multiset(xs)[xs[i]] >= 2
  {
    assert xs == xs[..i] + [xs[i]] + xs[i + 1..j] + [xs[j]] + xs[j + 1..];
  }

  lemma {:induction false} Once<T>(xs: seq<T>, x: T)
    requires forall i, j :: 0 <= i < j < |xs| ==> xs[i] != xs[j]
    ensures multiset(xs)[x] <= 1
  {
    if |xs| > 0 {
      assert xs == [xs[0]] + xs[1..];
      Once(xs[1..], x);
      if x == xs[0] { assert x !in xs[1..]; }
    }
  }

  lemma ApartPermuted(gs: seq<Bucket>, hs: seq<Bucket>)
    requires AllApart(gs) && multiset(gs) == multiset(hs)
    ensures AllApart(hs) && forall g :: g in gs <==> g in hs
  {
    forall i, j | 0 <= i < j < |gs| ensures gs[i] != gs[j] {
      assert Apart(gs[i], gs[j]);
    }
    forall g ensures g in gs <==> g in hs {
      assert g in multiset(gs) <==> g in multiset(hs);
    }
    forall i, j | 0 <= i < |hs| && 0 <= j < |hs| && i != j ensures Apart(hs[i], hs[j]) {
      if hs[i] == hs[j] {
        Twice(hs, if i < j then i else j, if i < j then j else i);
        Once(gs, hs[i]);
        assert false;
      }
      assert hs[i] in gs && hs[j] in gs;
      var k :| 0 <= k < |gs| && gs[k] == hs[i];
      var m :| 0 <= m < |gs| && gs[m] == hs[j];
    }
  }

  lemma GroupsSame(env: Env, o: Origin, gs: seq<Bucket>, hs: seq<Bucket>, next: Ulid)
    requires AllApart(gs) && multiset(gs) == multiset(hs)
    ensures SameRows(GroupsWrites(env, o, gs, next), GroupsWrites(env, o, hs, next))
    ensures NextAfterGroups(gs, next) == NextAfterGroups(hs, next)
  {
    hide GroupsWrites, BlocksRow, BlockRow, AllApart, LastWrite, NewProjects, AllAccepted, NextAfterGroups,
         GroupAccepted;
    ApartPermuted(gs, hs);
    GroupsAccept(env, o, gs, next);
    GroupsAccept(env, o, hs, next);
    GroupsWritesKinds(env, o, gs, next);
    GroupsWritesKinds(env, o, hs, next);
    NoNewProjects(GroupsWrites(env, o, gs, next));
    NoNewProjects(GroupsWrites(env, o, hs, next));
    forall key
      ensures LastWrite(GroupsWrites(env, o, gs, next), key) == LastWrite(GroupsWrites(env, o, hs, next), key)
    {
      GroupsLast(env, o, gs, next, key);
      GroupsLast(env, o, hs, next, key);
      BlocksRowApart(env, o, gs, key);
      BlocksRowApart(env, o, hs, key);
    }
    NextAfterGroupsIs(gs, next);
    NextAfterGroupsIs(hs, next);
    Sums.SumPermuted(gs, hs, GroupCount);
  }

  // ---------- the whole request ----------

  lemma SameItself(ws: seq<Write>)
    ensures SameRows(ws, ws)
  {}

  lemma {:induction false} RequestSame(env: Env, req: Request, orders: seq<seq<Bucket>>, ps: seq<Project>, next: Ulid)
    requires OrdersGroups(req, orders)
    ensures SameRows(RequestWrites(env, req, ps, next), OrderedWrites(env, req, orders, ps, next))
    decreases |req|
  {
    hide GroupsWrites, Buckets, OriginOf, ProjectName, ResolveProject, Unnamed, SameRows, AllApart, NextAfterGroups;
    if |req| == 0 {
      SameItself([]);
    } else {
      var name, gs, hs := ProjectName(req[0].attrs), Buckets(req[0]), orders[0];
      match ResolveProject(ps, name)
      case Some(id) =>
        var o, id2 := OriginOf(req[0], id), NextAfterGroups(gs, next);
        GroupsSame(env, o, gs, hs, next);
        RequestSame(env, req[1..], orders[1..], ps, id2);
        SameJoin(GroupsWrites(env, o, gs, next), GroupsWrites(env, o, hs, next),
                 RequestWrites(env, req[1..], ps, id2), OrderedWrites(env, req[1..], orders[1..], ps, id2));
      case None =>
        var p, o, id2 := Project(next, name), OriginOf(req[0], next), NextAfterGroups(gs, next + 1);
        var v, w := GroupsWrites(env, o, gs, next + 1), GroupsWrites(env, o, hs, next + 1);
        GroupsSame(env, o, gs, hs, next + 1);
        RequestSame(env, req[1..], orders[1..], ps + [p], id2);
        SameItself([PutProject(p)]);
        SameJoin([PutProject(p)], [PutProject(p)], v, w);
        SameJoin([PutProject(p)] + v, [PutProject(p)] + w,
                 RequestWrites(env, req[1..], ps + [p], id2), OrderedWrites(env, req[1..], orders[1..], ps + [p], id2));
    }
  }

  /** Whichever order the groups of each resource are iterated in, the request is
      accepted or not alike, and if it is, the project, trace, span and tool-call
      tables come out the same. */
  lemma GroupOrderIrrelevant(db: Tables, env: Env, req: Request, orders: seq<seq<Bucket>>, next: Ulid)
    requires OrdersGroups(req, orders)
    ensures var x := Run(db, RequestWrites(env, req, db.projects, next));
            var y := Run(db, OrderedWrites(env, req, orders, db.projects, next));
            && x.ok == y.ok
            && (x.ok ==> x.db.projects == y.db.projects && x.db.traces == y.db.traces
                         && x.db.spans == y.db.spans && x.db.tools == y.db.tools)
  {
    hide RequestWrites, OrderedWrites, Buckets, AllApart, SameRows, Run;
    RequestSame(env, req, orders, db.projects, next);
    SameTables(db, RequestWrites(env, req, db.projects, next), OrderedWrites(env, req, orders, db.projects, next));
  }
}
