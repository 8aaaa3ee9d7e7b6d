/** The trace row of a run: its label, its status, and the trace and span a replay branched from. */
module RunLabels {
  import opened Spans
  import opened Db
  import opened Deliveries
  import opened Ingest
  import opened IngestLaws
  import opened Recording
  import opened RecordingKept
  import opened Replay
  import opened TraceTotals
  import GroupOrder
  import HitCounts

  /** Nothing an event adds of its own claims to link to another trace. */
  predicate LinkFree(e: Event) {
    (e.action.Llm? || e.action.Node?) ==>
      K("stethoscope.parent_trace_id") !in e.action.extra && K("stethoscope.branch_point_span_id") !in e.action.extra
  }

  /** A link that says something. */
  function Said(link: Option<(string, string)>): (Option<string>, Option<string>) {
    match link
    case None => (None, None)
    case Some(to) => (if to.0 == "" then None else Some(to.0), if to.1 == "" then None else Some(to.1))
  }

  lemma EventUnlinked(t: TraceId, e: Event, at: Stamp)
    requires LinkFree(e)
    ensures GetStr(Emit(t, e, at).attrs, K("stethoscope.parent_trace_id")) == None
    ensures GetStr(Emit(t, e, at).attrs, K("stethoscope.branch_point_span_id")) == None
  {
    OwnUnlinked(e);
    hide OwnAttrs, EventName;
  }

  lemma OwnUnlinked(e: Event)
    ensures K("stethoscope.parent_trace_id") !in OwnAttrs(e) && K("stethoscope.branch_point_span_id") !in OwnAttrs(e)
  {}

  lemma RootLinked(s: Session, at: Stamp)
    ensures OrElse(GetStr(EmitRoot(s, at).attrs, K("stethoscope.parent_trace_id")), None) == Said(s.link).0
    ensures OrElse(GetStr(EmitRoot(s, at).attrs, K("stethoscope.branch_point_span_id")), None) == Said(s.link).1
  {}

  /** The span was left with an error, by an exception or by the agent. */
  predicate Fails(sp: OtelSpan) { sp.status.Some? && sp.status.value.0 == 2 }

  ghost predicate HasFailure(sps: seq<OtelSpan>) { exists sp :: sp in sps && Fails(sp) }

  lemma FailureStatus(h: Host, sps: seq<OtelSpan>)
    ensures HasFailure(sps) <==> exists k :: 0 <= k < |sps| && MapSpan(h, sps[k]).status == "error"
  {
    hide MapSpan;
    if sp :| sp in sps && Fails(sp) {
      var k :| 0 <= k < |sps| && sps[k] == sp;
      StatusIs(h, sps[k]);
    }
    if k :| 0 <= k < |sps| && MapSpan(h, sps[k]).status == "error" {
      StatusIs(h, sps[k]);
      assert sps[k] in sps;
    }
  }

  /** Only the root has no parent; it names the run and links it, and no other
      span does. */
  lemma SpanLinks(s: Session, es: seq<Event>, sp: OtelSpan)
    requires Stamped(s, es) && sp in Emitted(s, es) && forall k :: 0 <= k < |es| ==> LinkFree(es[k])
    ensures var p := GetStr(sp.attrs, K("stethoscope.parent_trace_id"));
            var b := GetStr(sp.attrs, K("stethoscope.branch_point_span_id"));
            if sp.parent.None? then sp.name == s.title && (OrElse(p, None), OrElse(b, None)) == Said(s.link)
            else p == None && b == None
  {
    var sps := Emitted(s, es);
    var k :| 0 <= k < |sps| && sps[k] == sp;
    hide RootAttrs, EventAttrs, EventName, Said, LinkFree, RECORDED;
    if k == 0 {
      RootLinked(s, s.stamps[0]);
    } else {
      assert sp == Emit(s.trace, es[k - 1], s.stamps[k]) && LinkFree(es[k - 1]);
      EventUnlinked(s.trace, es[k - 1], s.stamps[k]);
    }
  }

  /** What the accumulators make of one more span of the run. */
  lemma OneMore(h: Host, s: Session, es: seq<Event>, x: Totals, sp: OtelSpan)
    requires Stamped(s, es) && sp in Emitted(s, es) && forall k :: 0 <= k < |es| ==> LinkFree(es[k])
    requires x.root.Some? ==> x.root == Some(s.title) && (x.parentTrace, x.branchPoint) == Said(s.link)
    requires x.root.None? ==> x.parentTrace == None && x.branchPoint == None
    ensures var y := AddTotals(x, h, sp);
            && (y.root.Some? <==> x.root.Some? || sp.parent.None?)
            && (y.root.Some? ==> y.root == Some(s.title) && (y.parentTrace, y.branchPoint) == Said(s.link))
            && (y.root.None? ==> y.parentTrace == None && y.branchPoint == None)
            && (y.anyError <==> x.anyError || MapSpan(h, sp).status == "error")
  {
    SpanLinks(s, es, sp);
    hide MapSpan, GetStr, Emitted, Stamped, LinkFree;
  }

  lemma {:induction false} RunTotals(h: Host, s: Session, es: seq<Event>, spans: seq<OtelSpan>, n: nat)
    requires Stamped(s, es) && n <= |spans| && forall k :: 0 <= k < |es| ==> LinkFree(es[k])
    requires forall sp :: sp in spans ==> sp in Emitted(s, es)
    ensures var x := TotalsOf(h, spans, n);
            && (x.root.Some? <==> exists k :: 0 <= k < n && spans[k].parent.None?)
            && (x.root.Some? ==> x.root == Some(s.title) && (x.parentTrace, x.branchPoint) == Said(s.link))
            && (x.root.None? ==> x.parentTrace == None && x.branchPoint == None)
            && (x.anyError <==> exists k :: 0 <= k < n && MapSpan(h, spans[k]).status == "error")
  {
    hide MapSpan, AddTotals, Stamped, Emitted, LinkFree, Said;
    if n > 0 {
      RunTotals(h, s, es, spans, n - 1);
      assert spans[n - 1] in spans;
      OneMore(h, s, es, TotalsOf(h, spans, n - 1), spans[n - 1]);
    }
  }

  // ---------- the row of one group ----------

  /** The group holds spans of the run only, perhaps not all of them. */
  ghost predicate PartOfRun(g: Bucket, s: Session, es: seq<Event>) {
    |s.stamps| == |es| + 1 && g.trace == s.trace && forall sp :: sp in g.spans ==> sp in Emitted(s, es)
  }

  predicate HasRoot(g: Bucket, s: Session)
    requires |s.stamps| > 0
  {
    EmitRoot(s, s.stamps[0]) in g.spans
  }

  lemma RootInGroup(g: Bucket, s: Session, es: seq<Event>)
    requires Stamped(s, es) && PartOfRun(g, s, es)
    ensures HasRoot(g, s) <==> exists k :: 0 <= k < |g.spans| && g.spans[k].parent.None?
  {
    hide RootAttrs, EventAttrs, EventName;
    var sps := Emitted(s, es);
    if HasRoot(g, s) {
      var k :| 0 <= k < |g.spans| && g.spans[k] == sps[0];
      assert g.spans[k].parent.None?;
    }
    if k :| 0 <= k < |g.spans| && g.spans[k].parent.None? {
      assert g.spans[k] in sps;
      var i :| 0 <= i < |sps| && sps[i] == g.spans[k];
      assert i > 0 ==> sps[i] == Emit(s.trace, es[i - 1], s.stamps[i]);
      assert i == 0;
    }
  }

  /** The trace row written for a group of a run: it carries the run's title and
      links exactly if the root is in the group, and says failed exactly if a span
      that was left with an error is. */
  lemma RunRow(env: Env, o: Origin, g: Bucket, s: Session, es: seq<Event>)
    requires Stamped(s, es) && PartOfRun(g, s, es) && forall k :: 0 <= k < |es| ==> LinkFree(es[k])
    ensures var row := TraceRow(env, o, g);
            && row.id == s.trace && row.project == o.project
            && row.title == (if HasRoot(g, s) then Some(s.title) else None)
            && (row.parentTrace, row.branchPoint) == (if HasRoot(g, s) then Said(s.link) else (None, None))
            && row.status == (if HasFailure(g.spans) then "failed" else "completed")
  {
    hide MapSpan, LinkFree, Emitted, Stamped, HasRoot, HasFailure, Said;
    RunTotals(env.host, s, es, g.spans, |g.spans|);
    RootInGroup(g, s, es);
    FailureStatus(env.host, g.spans);
  }

  // ---------- the row that stays ----------

  function LastBlock(bs: seq<Block>, t: TraceId): Option<Block> {
    if |bs| == 0 then None
    else
      var later := LastBlock(bs[1..], t);
      if later.Some? then later else if bs[0].g.trace == t then Some(bs[0]) else None
  }

  lemma {:induction false} LastBlockRow(env: Env, bs: seq<Block>, t: TraceId)
    ensures BlocksRow(env, bs, KTrace(t)) ==
              match LastBlock(bs, t) case None => None case Some(b) => Some(PutTrace(TraceRow(env, b.o, b.g)))
    ensures LastBlock(bs, t).Some? ==> LastBlock(bs, t).value in bs && LastBlock(bs, t).value.g.trace == t
  {
    hide TraceRow;
    if |bs| > 0 {
      LastBlockRow(env, bs[1..], t);
      AbsentSpanRow(env, bs[0].g.spans, KTrace(t));
    }
  }

  datatype Sent = Sent(env: Env, block: Block)

  /** The last group of the trace in the deliveries. */
  function LastSent(db: Tables, bs: seq<Batch>, t: TraceId): Option<Sent>
    decreases |bs|
  {
    if |bs| == 0 then None
    else
      var later := LastSent(After(db, bs[0]), bs[1..], t);
      if later.Some? then later
      else match LastBlock(BlocksOf(bs[0].req, db.projects, bs[0].next), t)
        case None => None
        case Some(b) => Some(Sent(bs[0].env, b))
  }

  /** No delivery that brings spans of the trace is cut short. */
  ghost predicate Undisturbed(bs: seq<Batch>, t: TraceId) {
    forall b :: b in bs ==> Whole(b) || forall sp :: sp in SpansIn(b) ==> sp.trace != t
  }

  lemma {:induction false} InSomeGroup(gs: seq<Bucket>, g: Bucket, sp: OtelSpan)
    requires g in gs && sp in g.spans
    ensures sp in AllOf(gs)
  {
    if gs[0] != g { InSomeGroup(gs[1..], g, sp); }
  }

  lemma InResource(r: Resource, g: Bucket, sp: OtelSpan)
    requires g in Buckets(r) && sp in g.spans
    ensures sp in Flatten(r.scopes)
  {
    hide Buckets, Flatten;
    BucketsByTrace(r);
    InSomeGroup(Buckets(r), g, sp);
    assert sp in multiset(AllOf(Buckets(r)));
  }

  lemma BlockGroup(o: Origin, gs: seq<Bucket>, b: Block)
    requires b in BlocksWith(o, gs)
    ensures b.g in gs
  {
    var k :| 0 <= k < |gs| && BlocksWith(o, gs)[k] == b;
  }

  /** The groups of a request hold spans of the request. */
  lemma {:induction false} BlockWithin(req: Request, ps: seq<Project>, next: Ulid, b: Block, sp: OtelSpan)
    requires b in BlocksOf(req, ps, next) && sp in b.g.spans
    ensures sp in HitCounts.AllSpans(req)
    decreases |req|
  {
    hide Buckets, OriginOf, ProjectName, ResolveProject, Unnamed, Flatten, NextAfterGroups, BlocksWith;
    var name, gs := ProjectName(req[0].attrs), Buckets(req[0]);
    var id := ResolveProject(ps, name);
    var o := OriginOf(req[0], if id.Some? then id.value else next);
    if b in BlocksWith(o, gs) {
      BlockGroup(o, gs, b);
      InResource(req[0], b.g, sp);
    } else if id.Some? {
      BlockWithin(req[1..], ps, NextAfterGroups(gs, next), b, sp);
    } else {
      BlockWithin(req[1..], ps + [Project(next, name)], NextAfterGroups(gs, next + 1), b, sp);
    }
  }

  /** A delivery leaves the trace row of its last group of the trace. */
  lemma OneDelivery(db: Tables, b: Batch, t: TraceId)
    requires Undisturbed([b], t)
    ensures Row(After(db, b), KTrace(t)) ==
              match LastBlock(BlocksOf(b.req, db.projects, b.next), t)
              case None => Row(db, KTrace(t))
              case Some(x) => Some(PutTrace(TraceRow(b.env, x.o, x.g)))
  {
    hide Run, RequestWrites, BlocksOf, TraceRow, Row, LastWrite, Performed, ApplyAll, BlocksRow, LastBlock, Whole,
         SpansIn, KeyOf;
    var ws, x := WritesOf(db, b), LastBlock(BlocksOf(b.req, db.projects, b.next), t);
    RunIsPerformed(db, ws);
    RowAfter(db, Performed(ws), KTrace(t));
    RequestLast(b.env, b.req, db.projects, b.next, KTrace(t));
    LastBlockRow(b.env, BlocksOf(b.req, db.projects, b.next), t);
    LastWriteKey(ws, KTrace(t));
    LastWriteKey(Performed(ws), KTrace(t));
    assert b in [b];
    if Whole(b) { WholeIsAccepted(db, b); } else if x.Some? { SpanOfBlock(db, b, x.value, t); }
  }

  lemma SpanOfBlock(db: Tables, b: Batch, x: Block, t: TraceId)
    requires x in BlocksOf(b.req, db.projects, b.next) && x.g.trace == t
    ensures exists sp :: sp in SpansIn(b) && sp.trace == t
  {
    hide BlocksOf;
    BlocksGood(b.req, db.projects, b.next);
    BlockWithin(b.req, db.projects, b.next, x, x.g.spans[0]);
  }

  /** After the deliveries the row of a trace is that of its last group. */
  lemma {:induction false} LastSentStays(db: Tables, bs: seq<Batch>, t: TraceId)
    requires Undisturbed(bs, t)
    ensures Row(AfterAll(db, bs), KTrace(t)) ==
              match LastSent(db, bs, t)
              case None => Row(db, KTrace(t))
              case Some(x) => Some(PutTrace(TraceRow(x.env, x.block.o, x.block.g)))
    decreases |bs|
  {
    hide After, BlocksOf, TraceRow, Row, LastBlock, Whole, SpansIn;
    if |bs| > 0 {
      assert bs[0] in bs;
      OneDelivery(db, bs[0], t);
      LastSentStays(After(db, bs[0]), bs[1..], t);
    }
  }

  lemma {:induction false} LastSentPart(db: Tables, h: Host, bs: seq<Batch>, s: Session, es: seq<Event>)
    requires Faithful(h, bs, s, es) && LastSent(db, bs, s.trace).Some?
    ensures PartOfRun(LastSent(db, bs, s.trace).value.block.g, s, es)
    decreases |bs|
  {
    hide After, BlocksOf, LastBlock, Emitted;
    if LastSent(After(db, bs[0]), bs[1..], s.trace).Some? {
      LastSentPart(After(db, bs[0]), h, bs[1..], s, es);
    } else {
      var b := bs[0];
      var blocks := BlocksOf(b.req, db.projects, b.next);
      LastBlockRow(b.env, blocks, s.trace);
      var g := LastBlock(blocks, s.trace).value.g;
      BlocksGood(b.req, db.projects, b.next);
      forall sp | sp in g.spans ensures sp in Emitted(s, es) {
        BlockWithin(b.req, db.projects, b.next, LastBlock(blocks, s.trace).value, sp);
        HomogeneousIn(g, sp);
        assert AllOwn(SpansIn(b), s, es) && Claims(s, sp);
      }
    }
  }

  /** Some delivery brings a span of the trace. */
  ghost predicate Reaches(bs: seq<Batch>, t: TraceId) {
    exists b, sp :: b in bs && sp in SpansIn(b) && sp.trace == t
  }

  lemma {:induction false} GroupOf(gs: seq<Bucket>, sp: OtelSpan) returns (g: Bucket)
    requires sp in AllOf(gs)
    ensures g in gs && sp in g.spans
  {
    if sp in gs[0].spans { g := gs[0]; } else { g := GroupOf(gs[1..], sp); }
  }

  lemma ResourceBlock(r: Resource, o: Origin, sp: OtelSpan) returns (b: Block)
    requires sp in Flatten(r.scopes)
    ensures b in BlocksWith(o, Buckets(r)) && sp in b.g.spans
  {
    hide Buckets, Flatten;
    BucketsByTrace(r);
    assert sp in multiset(Flatten(r.scopes));
    assert sp in AllOf(Buckets(r));
    var g := GroupOf(Buckets(r), sp);
    var k :| 0 <= k < |Buckets(r)| && Buckets(r)[k] == g;
    b := BlocksWith(o, Buckets(r))[k];
  }

  lemma {:induction false} BlockOf(req: Request, ps: seq<Project>, next: Ulid, sp: OtelSpan) returns (b: Block)
    requires sp in HitCounts.AllSpans(req)
    ensures b in BlocksOf(req, ps, next) && sp in b.g.spans
    decreases |req|
  {
    hide Buckets, OriginOf, ProjectName, ResolveProject, Unnamed, Flatten, NextAfterGroups, BlocksWith;
    var name, gs := ProjectName(req[0].attrs), Buckets(req[0]);
    var id := ResolveProject(ps, name);
    if sp in Flatten(req[0].scopes) {
      b := ResourceBlock(req[0], OriginOf(req[0], if id.Some? then id.value else next), sp);
    } else if id.Some? {
      b := BlockOf(req[1..], ps, NextAfterGroups(gs, next), sp);
    } else {
      b := BlockOf(req[1..], ps + [Project(next, name)], NextAfterGroups(gs, next + 1), sp);
    }
  }

  lemma {:induction false} SomeLastBlock(bs: seq<Block>, b: Block)
    requires b in bs
    ensures LastBlock(bs, b.g.trace).Some?
  {
    if bs[0] != b { SomeLastBlock(bs[1..], b); }
  }

  lemma {:induction false} SomeLastSent(db: Tables, bs: seq<Batch>, t: TraceId)
    requires Reaches(bs, t)
    ensures LastSent(db, bs, t).Some?
    decreases |bs|
  {
    hide After, BlocksOf, LastBlock, SpansIn;
    var b, sp :| b in bs && sp in SpansIn(b) && sp.trace == t;
    if b == bs[0] {
      SentNow(db, b, sp);
    } else {
      SomeLastSent(After(db, bs[0]), bs[1..], t);
    }
  }

  lemma SentNow(db: Tables, b: Batch, sp: OtelSpan)
    requires sp in SpansIn(b)
    ensures LastBlock(BlocksOf(b.req, db.projects, b.next), sp.trace).Some?
  {
    hide BlocksOf, LastBlock;
    var x := BlockOf(b.req, db.projects, b.next, sp);
    BlocksGood(b.req, db.projects, b.next);
    HomogeneousIn(x.g, sp);
    SomeLastBlock(BlocksOf(b.req, db.projects, b.next), x);
  }

  /** What the row of a run should say, as if it had come in one group. */
  ghost predicate SaysRun(row: Trace, s: Session, es: seq<Event>)
    requires |s.stamps| == |es| + 1
  {
    && row.title == Some(s.title) && (row.parentTrace, row.branchPoint) == Said(s.link)
    && row.status == if HasFailure(Emitted(s, es)) then "failed" else "completed"
  }

  /** The stored trace row of a run delivered in any number of requests says what
      it should exactly when its last group brings the root and, if a span was left
      with an error, one that was. */
  lemma StoredRunRow(db: Tables, h: Host, bs: seq<Batch>, s: Session, es: seq<Event>)
    requires Stamped(s, es) && Faithful(h, bs, s, es) && Undisturbed(bs, s.trace)
    requires Reaches(bs, s.trace) && forall k :: 0 <= k < |es| ==> LinkFree(es[k])
    ensures LastSent(db, bs, s.trace).Some?
    ensures var g, after := LastSent(db, bs, s.trace).value.block.g, AfterAll(db, bs);
            && s.trace in after.traces
            && (SaysRun(after.traces[s.trace], s, es)
                <==> HasRoot(g, s) && (HasFailure(Emitted(s, es)) ==> HasFailure(g.spans)))
  {
    hide AfterAll, LastSent, TraceRow, Faithful, Undisturbed, LinkFree, HasRoot, Said, Fails, Reaches, Emitted;
    SomeLastSent(db, bs, s.trace);
    var x := LastSent(db, bs, s.trace).value;
    LastSentStays(db, bs, s.trace);
    LastSentPart(db, h, bs, s, es);
    RunRow(x.env, x.block.o, x.block.g, s, es);
  }

  // ---------- a run whose root comes last ----------

  function OneResource(env: Env, sps: seq<OtelSpan>, next: Ulid): Batch {
    Batch(env, [Resource(map[], [sps])], next)
  }

  lemma SpansOfOne(env: Env, sps: seq<OtelSpan>, next: Ulid)
    ensures SpansIn(OneResource(env, sps, next)) == sps
  {
    var r := Resource(map[], [sps]);
    assert [r][1..] == [] && r.scopes[1..] == [];
    assert Flatten(r.scopes) == sps + Flatten([]) == sps;
    assert HitCounts.AllSpans([r]) == Flatten(r.scopes) + HitCounts.AllSpans([]);
  }

  lemma RootAccepted(env: Env, s: Session, at: Stamp)
    requires at.start != 0
    ensures GroupOrder.SpanAccepted(env, EmitRoot(s, at))
  {
    hide GetReal, GetInt, GetBool, StatusOf, RECORDED;
  }

  lemma EventAccepted(env: Env, t: TraceId, e: Event, at: Stamp)
    requires at.start != 0
    ensures GroupOrder.SpanAccepted(env, Emit(t, e, at))
  {
    KindOf(env.host, e, t, at);
    hide GetReal, GetInt, GetBool, StatusOf, InferKind, EventName, ExtraAttrs, RECORDED;
  }

  /** No span of a run is rejected. */
  lemma RunAccepted(env: Env, s: Session, es: seq<Event>, sp: OtelSpan)
    requires Stamped(s, es) && sp in Emitted(s, es)
    ensures GroupOrder.SpanAccepted(env, sp)
  {
    hide RootAttrs, EventAttrs, EventName, GroupOrder.SpanAccepted;
    var sps := Emitted(s, es);
    var k :| 0 <= k < |sps| && sps[k] == sp;
    if k == 0 {
      RootAccepted(env, s, s.stamps[0]);
    } else {
      assert sp == Emit(s.trace, es[k - 1], s.stamps[k]);
      EventAccepted(env, s.trace, es[k - 1], s.stamps[k]);
    }
  }

  /** The run in two requests: first its events, then the root, which ends last. */
  function RootLast(env: Env, s: Session, es: seq<Event>, n: Ulid, m: Ulid): seq<Batch>
    requires |s.stamps| == |es| + 1
  {
    [OneResource(env, Emitted(s, es)[1..], n), OneResource(env, Emitted(s, es)[..1], m)]
  }

  lemma WholeRun(s: Session, es: seq<Event>, b: Batch)
    requires Stamped(s, es) && forall sp :: sp in SpansIn(b) ==> sp in Emitted(s, es)
    ensures Whole(b)
  {
    hide SpansIn, Emitted, GroupOrder.SpanAccepted, Stamped;
    forall sp | sp in SpansIn(b) ensures GroupOrder.SpanAccepted(b.env, sp) {
      RunAccepted(b.env, s, es, sp);
    }
  }

  lemma InTwo(sps: seq<OtelSpan>, b: Batch, c: Batch)
    requires |sps| > 0 && SpansIn(b) == sps[1..] && SpansIn(c) == sps[..1] && Whole(b) && Whole(c)
    ensures forall sp :: sp in sps ==> Brought([b, c], sp)
  {
    hide SpansIn, Whole;
    assert b in [b, c] && c in [b, c];
    forall sp | sp in sps ensures sp in SpansIn(b) || sp in SpansIn(c) {
      assert sps == sps[..1] + sps[1..];
    }
  }

  lemma TwoFaithful(s: Session, es: seq<Event>, b: Batch, c: Batch)
    requires |s.stamps| == |es| + 1 && Whole(b) && Whole(c) && b.env == c.env
    requires forall sp :: sp in SpansIn(b) || sp in SpansIn(c) ==> sp in Emitted(s, es)
    ensures Faithful(b.env.host, [b, c], s, es) && Undisturbed([b, c], s.trace)
  {
    hide SpansIn, Emitted, Whole, Claims;
    assert forall d :: d in [b, c] <==> d == b || d == c;
  }

  lemma RootLastArrives(env: Env, s: Session, es: seq<Event>, n: Ulid, m: Ulid)
    requires Stamped(s, es)
    ensures var bs := RootLast(env, s, es, n, m);
            Faithful(env.host, bs, s, es) && Arrives(bs, s, es) && Undisturbed(bs, s.trace)
  {
    var sps := Emitted(s, es);
    hide SpansIn, Emitted, Stamped, Whole, Brought, Faithful, Undisturbed;
    var b, c := OneResource(env, sps[1..], n), OneResource(env, sps[..1], m);
    SpansOfOne(env, sps[1..], n);
    SpansOfOne(env, sps[..1], m);
    WholeRun(s, es, b);
    WholeRun(s, es, c);
    InTwo(sps, b, c);
    TwoFaithful(s, es, b, c);
  }

  lemma SecondSent(db: Tables, b: Batch, c: Batch, t: TraceId)
    ensures var x := LastBlock(BlocksOf(c.req, After(db, b).projects, c.next), t);
            x.Some? ==> LastSent(db, [b, c], t) == Some(Sent(c.env, x.value))
  {
    hide After, BlocksOf, LastBlock;
    assert [b, c][1..] == [c];
    assert LastSent(After(After(db, b), c), [c][1..], t) == None;
  }

  lemma RootSentLast(db: Tables, env: Env, s: Session, es: seq<Event>, n: Ulid, m: Ulid)
    requires Stamped(s, es)
    ensures var x := LastSent(db, RootLast(env, s, es, n, m), s.trace);
            x.Some? && forall sp :: sp in x.value.block.g.spans <==> sp == EmitRoot(s, s.stamps[0])
  {
    var root := EmitRoot(s, s.stamps[0]);
    assert Emitted(s, es)[..1] == [root] && root.trace == s.trace;
    hide SpansIn, Emitted, BlocksOf, LastBlock, After, Stamped, EmitRoot;
    var b, c := OneResource(env, Emitted(s, es)[1..], n), OneResource(env, Emitted(s, es)[..1], m);
    var mid := After(db, b);
    SpansOfOne(env, Emitted(s, es)[..1], m);
    SentNow(mid, c, root);
    SecondSent(db, b, c, s.trace);
    var x := LastBlock(BlocksOf(c.req, mid.projects, c.next), s.trace).value;
    LastBlockRow(env, BlocksOf(c.req, mid.projects, c.next), s.trace);
    OnlySpan(mid, c, root, x);
  }

  /** A group of a request of one span holds that span. */
  lemma OnlySpan(db: Tables, b: Batch, sp: OtelSpan, x: Block)
    requires x in BlocksOf(b.req, db.projects, b.next) && SpansIn(b) == [sp]
    ensures forall other :: other in x.g.spans <==> other == sp
  {
    hide BlocksOf;
    BlocksGood(b.req, db.projects, b.next);
    forall other | other in x.g.spans ensures other == sp {
      BlockWithin(b.req, db.projects, b.next, x, other);
    }
    assert x.g.spans[0] in x.g.spans;
  }

  /** Delivered so, a run is stored as failed exactly if the root itself was left
      with an error, whatever became of the spans below it. */
  lemma SplitRunForgets(db: Tables, env: Env, s: Session, es: seq<Event>, n: Ulid, m: Ulid)
    requires Stamped(s, es) && forall k :: 0 <= k < |es| ==> LinkFree(es[k])
    ensures var bs := RootLast(env, s, es, n, m);
            && Faithful(env.host, bs, s, es) && Arrives(bs, s, es) && Undisturbed(bs, s.trace)
            && s.trace in AfterAll(db, bs).traces
            && AfterAll(db, bs).traces[s.trace].status
                 == if Failed(s.stamps[0].close) then "failed" else "completed"
  {
    var bs := RootLast(env, s, es, n, m);
    assert |s.stamps| == |es| + 1;
    assert Fails(EmitRoot(s, s.stamps[0])) <==> Failed(s.stamps[0].close);
    hide Faithful, Arrives, Undisturbed, LinkFree, TraceRow, AfterAll, LastSent, Said, Stamped, HasRoot, Emit,
         EmitRoot, RootLast, Fails, Failed;
    RootLastArrives(env, s, es, n, m);
    RootSentLast(db, env, s, es, n, m);
    var x := LastSent(db, bs, s.trace).value;
    LastSentStays(db, bs, s.trace);
    LastSentPart(db, env.host, bs, s, es);
    RunRow(x.env, x.block.o, x.block.g, s, es);
  }
}
