/**
 What every batch keeps: grouping by trace is a permutation, each write finds the
 row it refers to when its turn comes, so that no row is ever orphaned, and the
 writes of a batch are of few kinds.
 */
module IngestLaws {
  import opened Spans
  import opened Db
  import opened Ingest
  import IngestRun
  import BP = Breakpoint

  // ---------- the groups ----------

  function AllOf(gs: seq<Bucket>): seq<OtelSpan> {
    if |gs| == 0 then [] else gs[0].spans + AllOf(gs[1..])
  }

  ghost predicate OneTraceEach(gs: seq<Bucket>) {
    && (forall i, j :: 0 <= i < j < |gs| ==> gs[i].trace != gs[j].trace)
    && (forall g :: g in gs ==> Homogeneous(g))
  }

  predicate Homogeneous(g: Bucket) {
    forall k :: 0 <= k < |g.spans| ==> g.spans[k].trace == g.trace
  }

  function TracesOf(gs: seq<Bucket>): set<TraceId> {
    set g | g in gs :: g.trace
  }

  lemma {:induction false} AddSpanTraces(gs: seq<Bucket>, sp: OtelSpan)
    ensures TracesOf(AddSpan(gs, sp)) == TracesOf(gs) + {sp.trace}
  {
    if |gs| > 0 {
      assert gs == [gs[0]] + gs[1..];
      TracesCons(gs[0], gs[1..]);
      if gs[0].trace == sp.trace {
        TracesCons(Bucket(sp.trace, gs[0].spans + [sp]), gs[1..]);
      } else {
        AddSpanTraces(gs[1..], sp);
        TracesCons(gs[0], AddSpan(gs[1..], sp));
      }
    }
  }

  lemma TracesCons(g: Bucket, gs: seq<Bucket>)
    ensures TracesOf([g] + gs) == {g.trace} + TracesOf(gs)
  {
    assert forall h :: h in [g] + gs <==> h == g || h in gs;
  }

  lemma OneTraceCons(g: Bucket, gs: seq<Bucket>)
    ensures OneTraceEach([g] + gs) <==> OneTraceEach(gs) && Homogeneous(g) && g.trace !in TracesOf(gs)
  {
    var all := [g] + gs;
    assert forall h :: h in all <==> h == g || h in gs;
    if OneTraceEach(all) {
      forall i, j | 0 <= i < j < |gs| ensures gs[i].trace != gs[j].trace {
        assert all[i + 1].trace != all[j + 1].trace;
      }
      forall k | 0 <= k < |gs| ensures gs[k].trace != g.trace {
        assert all[0].trace != all[k + 1].trace;
      }
    }
  }

  lemma {:induction false} AddSpanGroups(gs: seq<Bucket>, sp: OtelSpan)
    requires OneTraceEach(gs)
    ensures OneTraceEach(AddSpan(gs, sp))
  {
    if |gs| > 0 {
      hide OneTraceEach, TracesOf;
      assert gs == [gs[0]] + gs[1..];
      OneTraceCons(gs[0], gs[1..]);
      if gs[0].trace == sp.trace {
        OneTraceCons(Bucket(sp.trace, gs[0].spans + [sp]), gs[1..]);
      } else {
        AddSpanGroups(gs[1..], sp);
        AddSpanTraces(gs[1..], sp);
        OneTraceCons(gs[0], AddSpan(gs[1..], sp));
      }
    }
  }

  lemma {:induction false} AddSpanMultiset(gs: seq<Bucket>, sp: OtelSpan)
    ensures multiset(AllOf(AddSpan(gs, sp))) == multiset(AllOf(gs)) + multiset{sp}
  {
    if |gs| == 0 {
      assert AllOf([Bucket(sp.trace, [sp])]) == [sp] + [];
    } else if gs[0].trace == sp.trace {
      var g := Bucket(sp.trace, gs[0].spans + [sp]);
      assert ([g] + gs[1..])[1..] == gs[1..];
    } else {
      AddSpanMultiset(gs[1..], sp);
      var rest := AddSpan(gs[1..], sp);
      assert ([gs[0]] + rest)[1..] == rest;
    }
  }

  lemma {:induction false} GroupedOneTrace(spans: seq<OtelSpan>, n: nat)
    requires n <= |spans|
    ensures OneTraceEach(Grouped(spans, n))
  {
    if n > 0 {
      GroupedOneTrace(spans, n - 1);
      AddSpanGroups(Grouped(spans, n - 1), spans[n - 1]);
    }
  }

  lemma {:induction false} GroupedMultiset(spans: seq<OtelSpan>, n: nat)
    requires n <= |spans|
    ensures multiset(AllOf(Grouped(spans, n))) == multiset(spans[..n])
  {
    hide AddSpan, AllOf;
    if n > 0 {
      GroupedMultiset(spans, n - 1);
      AddSpanMultiset(Grouped(spans, n - 1), spans[n - 1]);
      assert spans[..n] == spans[..n - 1] + [spans[n - 1]];
    } else {
      NoGroups();
    }
  }

  lemma NoGroups()
    ensures AllOf([]) == []
  {}

  /** Grouping puts every span, once, into the one group of its trace. */
  lemma BucketsByTrace(r: Resource)
    ensures OneTraceEach(Buckets(r)) && multiset(AllOf(Buckets(r))) == multiset(Flatten(r.scopes))
  {
    var all := Flatten(r.scopes);
    GroupedOneTrace(all, |all|);
    GroupedMultiset(all, |all|);
    assert all[..|all|] == all;
  }

  // ---------- no orphans ----------

  function ApplyAll(db: Tables, ws: seq<Write>): Tables
    decreases |ws|
  {
    if |ws| == 0 then db else ApplyAll(Apply(db, ws[0]), ws[1..])
  }

  ghost predicate Grows(a: Tables, b: Tables) {
    a.projects <= b.projects && a.traces.Keys <= b.traces.Keys && a.spans.Keys <= b.spans.Keys
  }

  lemma ThereGrows(a: Tables, b: Tables, w: Write)
    requires Grows(a, b) && ParentThere(a, w)
    ensures ParentThere(b, w)
  {
    if w.PutTrace? {
      var p :| p in a.projects && p.id == w.trace.project;
      assert p in b.projects;
    }
  }

  lemma ApplyGrows(db: Tables, w: Write)
    ensures Grows(db, Apply(db, w))
  {}

  lemma {:induction false} ApplyAllGrows(db: Tables, ws: seq<Write>)
    ensures Grows(db, ApplyAll(db, ws))
    decreases |ws|
  {
    hide Apply;
    if |ws| > 0 {
      ApplyGrows(db, ws[0]);
      ApplyAllGrows(Apply(db, ws[0]), ws[1..]);
    }
  }

  lemma {:induction false} AllThereFirst(db: Tables, ws: seq<Write>)
    requires forall w :: w in ws ==> ParentThere(db, w)
    ensures Db.ParentsFirst(db, ws)
    decreases |ws|
  {
    hide Apply, ParentThere, Grows;
    if |ws| > 0 {
      ApplyGrows(db, ws[0]);
      forall w | w in ws[1..] ensures ParentThere(Apply(db, ws[0]), w) {
        ThereGrows(db, Apply(db, ws[0]), w);
      }
      assert ws[0] in ws;
      AllThereFirst(Apply(db, ws[0]), ws[1..]);
    }
  }

  lemma {:induction false} FirstJoin(db: Tables, a: seq<Write>, b: seq<Write>)
    requires Db.ParentsFirst(db, a) && Db.ParentsFirst(ApplyAll(db, a), b)
    ensures Db.ParentsFirst(db, a + b) && ApplyAll(db, a + b) == ApplyAll(ApplyAll(db, a), b)
    decreases |a|
  {
    hide Apply, ParentThere;
    if |a| == 0 {
      assert a + b == b;
    } else {
      assert (a + b)[0] == a[0] && (a + b)[1..] == a[1..] + b;
      FirstJoin(Apply(db, a[0]), a[1..], b);
    }
  }

  lemma {:induction false} MessagesBelong(a: AttrMap, span: SpanId, prefix: string, role: string, i: nat,
                                          at: nat, next: Ulid)
    ensures forall m :: m in MessagesFrom(a, span, prefix, role, i, at, next) ==> m.span == span && m.contentRef == None
    decreases |KeysFrom(a, prefix, i)|
  {
    if GetStr(a, At(prefix, i, "content")).Some? {
      KeysShrink(a, prefix, i);
      SubsetSmaller(KeysFrom(a, prefix, i + 1), KeysFrom(a, prefix, i));
      MessagesBelong(a, span, prefix, role, i + 1, at + 1, next + 1);
    }
  }

  lemma {:induction false} MessageWritesAre(ms: seq<Message>)
    ensures forall w :: w in MessageWrites(ms) ==> w.PutMessage? && w.message in ms
  {
    if |ms| > 0 { MessageWritesAre(ms[1..]); }
  }

  lemma {:induction false} HitWritesAre(env: Env, bps: seq<(Ulid, BP.Expr)>, sp: OtelSpan)
    ensures forall w :: w in HitWrites(env, bps, sp) ==> w.Hit?
  {
    hide Matches;
    if |bps| > 0 { HitWritesAre(env, bps[1..], sp); }
  }

  /** What follows the span row of a span's writes refers to that row. */
  function AfterRow(env: Env, sp: OtelSpan, next: Ulid): seq<Write> {
    MessageWrites(MessagesOf(sp.attrs, sp.id, next))
    + ToolWrites(env, sp) + CacheWrites(env, sp) + HitWrites(env, env.bps, sp)
  }

  lemma AfterRowThere(db: Tables, env: Env, sp: OtelSpan, next: Ulid)
    requires sp.id in db.spans
    ensures forall w :: w in AfterRow(env, sp, next) ==> ParentThere(db, w)
    ensures forall w :: w in AfterRow(env, sp, next) ==>
              (w.PutMessage? || w.PutTool? || w.PutCache? || w.Hit?) && Plain(w)
  {
    hide Matches, CacheOf, MessagesFrom, HitWrites, MessageWrites;
    var prompts := MessagesFrom(sp.attrs, sp.id, "gen_ai.prompt", "user", 0, 0, next);
    MessagesBelong(sp.attrs, sp.id, "gen_ai.prompt", "user", 0, 0, next);
    MessagesBelong(sp.attrs, sp.id, "gen_ai.completion", "assistant", 0, |prompts|, next + |prompts|);
    MessageWritesAre(MessagesOf(sp.attrs, sp.id, next));
    HitWritesAre(env, env.bps, sp);
  }

  lemma ApplyOne(db: Tables, w: Write)
    ensures ApplyAll(db, [w]) == Apply(db, w)
  {
    hide Apply;
    assert ApplyAll(Apply(db, w), [w][1..]) == Apply(db, w);
  }

  lemma SpanFirst(db: Tables, env: Env, sp: OtelSpan, next: Ulid)
    requires sp.trace in db.traces
    ensures Db.ParentsFirst(db, SpanWrites(env, sp, next))
  {
    hide MapSpan, MessagesOf, ToolWrites, CacheWrites, HitWrites, MessageWrites;
    var row := PutSpan(MapSpan(env.host, sp));
    IngestRun.MapSpanId(env.host, sp);
    AllThereFirst(db, [row]);
    hide ParentThere, Db.ParentsFirst;
    ApplyOne(db, row);
    var tail := AfterRow(env, sp, next);
    AfterRowThere(Apply(db, row), env, sp, next);
    AllThereFirst(Apply(db, row), tail);
    FirstJoin(db, [row], tail);
    assert SpanWrites(env, sp, next) == [row] + tail;
  }

  lemma {:induction false} SpansFirst(db: Tables, env: Env, spans: seq<OtelSpan>, next: Ulid)
    requires forall sp :: sp in spans ==> sp.trace in db.traces
    ensures Db.ParentsFirst(db, SpansWrites(env, spans, next))
    decreases |spans|
  {
    hide SpanWrites, MessagesOf, Apply;
    if |spans| > 0 {
      var w := SpanWrites(env, spans[0], next);
      var id := next + |MessagesOf(spans[0].attrs, spans[0].id, next)|;
      SpanFirst(db, env, spans[0], next);
      ApplyAllGrows(db, w);
      SpansFirst(ApplyAll(db, w), env, spans[1..], id);
      FirstJoin(db, w, SpansWrites(env, spans[1..], id));
    }
  }

  lemma {:induction false} GroupsFirst(db: Tables, env: Env, o: Origin, gs: seq<Bucket>, next: Ulid)
    requires HasProject(db.projects, o.project) && OneTraceEach(gs)
    ensures Db.ParentsFirst(db, GroupsWrites(env, o, gs, next))
    decreases |gs|
  {
    hide SpansWrites, TraceRow;
    if |gs| > 0 {
      var g := gs[0];
      assert g in gs;
      var row := PutTrace(TraceRow(env, o, g));
      TraceRowKeys(env, o, g);
      AllThereFirst(db, [row]);
      ApplyOne(db, row);
      forall sp | sp in g.spans ensures sp.trace == g.trace {
        var k :| 0 <= k < |g.spans| && g.spans[k] == sp;
      }
      SpansFirst(Apply(db, row), env, g.spans, next);
      FirstJoin(db, [row], SpansWrites(env, g.spans, next));
      var w := GroupWrites(env, o, g, next);
      ApplyAllGrows(db, w);
      ProjectStays(db, ApplyAll(db, w), o.project);
      assert forall h :: h in gs[1..] ==> h in gs;
      GroupsFirst(ApplyAll(db, w), env, o, gs[1..], NextAfter(g.spans, next));
      FirstJoin(db, w, GroupsWrites(env, o, gs[1..], NextAfter(g.spans, next)));
    }
  }

  lemma TraceRowKeys(env: Env, o: Origin, g: Bucket)
    ensures TraceRow(env, o, g).id == g.trace && TraceRow(env, o, g).project == o.project
  {}

  lemma ProjectStays(a: Tables, b: Tables, id: Ulid)
    requires Grows(a, b) && HasProject(a.projects, id)
    ensures HasProject(b.projects, id)
  {
    var p :| p in a.projects && p.id == id;
    assert p in b.projects;
  }

  lemma KeepsProjects(db: Tables, w: Write)
    requires !w.PutProject?
    ensures Apply(db, w).projects == db.projects
  {}

  lemma {:induction false} NoProjectWrites(db: Tables, ws: seq<Write>)
    requires forall w :: w in ws ==> !w.PutProject?
    ensures ApplyAll(db, ws).projects == db.projects
    decreases |ws|
  {
    hide Apply;
    if |ws| > 0 {
      assert ws[0] in ws;
      KeepsProjects(db, ws[0]);
      NoProjectWrites(Apply(db, ws[0]), ws[1..]);
    }
  }

  /** What the spans of a batch may write: no project, no change to the list of
      breakpoints, and every payload inline. */
  predicate OfSpans(w: Write) { !w.PutProject? && !w.AddBp? && !w.DeleteBp? && Plain(w) }

  lemma SpanWritesKinds(env: Env, sp: OtelSpan, next: Ulid)
    ensures forall w :: w in SpanWrites(env, sp, next) ==> OfSpans(w)
  {
    hide MapSpan, MessagesOf, ToolWrites, CacheWrites, HitWrites, MessageWrites, ParentThere;
    var row := PutSpan(MapSpan(env.host, sp));
    AfterRowThere(EMPTY.(spans := map[sp.id := row.span]), env, sp, next);
    assert SpanWrites(env, sp, next) == [row] + AfterRow(env, sp, next);
  }

  lemma {:induction false} SpansWritesKinds(env: Env, spans: seq<OtelSpan>, next: Ulid)
    ensures forall w :: w in SpansWrites(env, spans, next) ==> OfSpans(w)
  {
    hide SpanWrites, MessagesOf, OfSpans;
    if |spans| > 0 {
      SpanWritesKinds(env, spans[0], next);
      SpansWritesKinds(env, spans[1..], next + |MessagesOf(spans[0].attrs, spans[0].id, next)|);
    }
  }

  lemma {:induction false} GroupsWritesKinds(env: Env, o: Origin, gs: seq<Bucket>, next: Ulid)
    ensures forall w :: w in GroupsWrites(env, o, gs, next) ==> OfSpans(w)
  {
    hide SpansWrites, TraceRow;
    if |gs| > 0 {
      SpansWritesKinds(env, gs[0].spans, next);
      GroupsWritesKinds(env, o, gs[1..], NextAfter(gs[0].spans, next));
    }
  }

  /** Of all the statements of a store, ingestion never touches the list of
      breakpoints, and it hands every payload over inline. */
  lemma {:induction false} RequestWritesKinds(env: Env, req: Request, ps: seq<Project>, next: Ulid)
    ensures forall w :: w in RequestWrites(env, req, ps, next) ==> !w.AddBp? && !w.DeleteBp? && Plain(w)
    decreases |req|
  {
    hide GroupsWrites, Buckets, OriginOf, ProjectName, ResolveProject;
    if |req| > 0 {
      var name, gs := ProjectName(req[0].attrs), Buckets(req[0]);
      match ResolveProject(ps, name)
      case Some(id) =>
        GroupsWritesKinds(env, OriginOf(req[0], id), gs, next);
        RequestWritesKinds(env, req[1..], ps, NextAfterGroups(gs, next));
      case None =>
        GroupsWritesKinds(env, OriginOf(req[0], next), gs, next + 1);
        RequestWritesKinds(env, req[1..], ps + [Project(next, name)], NextAfterGroups(gs, next + 1));
    }
  }

  lemma {:induction false} RequestFirst(db: Tables, env: Env, req: Request, next: Ulid)
    ensures Db.ParentsFirst(db, RequestWrites(env, req, db.projects, next))
    decreases |req|
  {
    EmptyFirst(db);
    hide GroupsWrites, Buckets, OriginOf, ProjectName, Apply, Db.ParentsFirst, HasProject, ResolveProject,
         NextAfterGroups, Unnamed;
    if |req| > 0 {
      var gs := Buckets(req[0]);
      BucketsByTrace(req[0]);
      match ResolveProject(db.projects, ProjectName(req[0].attrs))
      case Some(id) =>
        Resolved(db.projects, ProjectName(req[0].attrs));
        ResourceFirst(db, env, req, id, next);
      case None =>
        var p := Project(next, ProjectName(req[0].attrs));
        var db1 := Apply(db, PutProject(p));
        NewProject(db, p);
        ApplyOne(db, PutProject(p));
        ResourceFirst(db1, env, req, next, next + 1);
        var mine := GroupsWrites(env, OriginOf(req[0], next), gs, next + 1);
        var others := RequestWrites(env, req[1..], db1.projects, NextAfterGroups(gs, next + 1));
        FirstJoin(db, [PutProject(p)], mine + others);
        assert [PutProject(p)] + mine + others == [PutProject(p)] + (mine + others);
    }
  }

  lemma NewProject(db: Tables, p: Project)
    ensures Apply(db, PutProject(p)).projects == db.projects + [p]
    ensures HasProject(Apply(db, PutProject(p)).projects, p.id)
    ensures Db.ParentsFirst(db, [PutProject(p)])
  {
    assert p in db.projects + [p];
    AllThereFirst(db, [PutProject(p)]);
  }

  lemma EmptyFirst(db: Tables)
    ensures Db.ParentsFirst(db, [])
  {}

  lemma Resolved(ps: seq<Project>, name: string)
    requires ResolveProject(ps, name).Some?
    ensures HasProject(ps, ResolveProject(ps, name).value)
  {}

  lemma {:induction false} ResourceFirst(db: Tables, env: Env, req: Request, project: Ulid, next: Ulid)
    requires |req| > 0 && HasProject(db.projects, project)
    ensures var gs := Buckets(req[0]);
            Db.ParentsFirst(db, GroupsWrites(env, OriginOf(req[0], project), gs, next)
                                + RequestWrites(env, req[1..], db.projects, NextAfterGroups(gs, next)))
    decreases |req|, 0
  {
    hide GroupsWrites, Buckets, OriginOf, ProjectName, Apply;
    var gs := Buckets(req[0]);
    BucketsByTrace(req[0]);
    var o := OriginOf(req[0], project);
    OriginProject(req[0], project);
    var mine := GroupsWrites(env, o, gs, next);
    GroupsFirst(db, env, o, gs, next);
    GroupsWritesKinds(env, o, gs, next);
    NoProjectWrites(db, mine);
    RequestFirst(ApplyAll(db, mine), env, req[1..], NextAfterGroups(gs, next));
    FirstJoin(db, mine, RequestWrites(env, req[1..], db.projects, NextAfterGroups(gs, next)));
  }

  lemma OriginProject(r: Resource, project: Ulid)
    ensures OriginOf(r, project).project == project
  {}

  /** After every single write of a request, so also where it is cut short by
      a rejected one, no row has lost its parent row. */
  lemma IngestionNeverOrphans(db: Tables, env: Env, req: Request, next: Ulid, k: nat)
    requires Integrity(db) && k <= |RequestWrites(env, req, db.projects, next)|
    ensures Integrity(Run(db, RequestWrites(env, req, db.projects, next)[..k]).db)
  {
    RequestFirst(db, env, req, next);
    PrefixesKeepIntegrity(db, RequestWrites(env, req, db.projects, next), k);
  }
}
