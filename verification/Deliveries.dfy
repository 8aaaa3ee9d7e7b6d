/** Requests delivered one after the other, some cut short: what they write, and for which spans. */
module Deliveries {
  import opened Spans
  import opened Db
  import opened Ingest
  import opened IngestLaws
  import GroupOrder
  import HitCounts
  import IngestRun

  // ---------- where the writes of a request come from ----------

  /** The span, tool-call or cache row written for a span. */
  ghost predicate Gives(env: Env, sp: OtelSpan, w: Write) {
    || w == PutSpan(MapSpan(env.host, sp))
    || (w.PutTool? && ToolOf(sp) == Some(w.tool))
    || (w.PutCache? && CacheOf(env.host, sp, env.now) == Some(w.row))
  }

  predicate IsSpanData(w: Write) { w.PutSpan? || w.PutTool? || w.PutCache? }

  lemma SpanGives(env: Env, sp: OtelSpan, next: Ulid, w: Write)
    requires IsSpanData(w)
    ensures w in SpanWrites(env, sp, next) <==> Gives(env, sp, w)
  {
    hide MapSpan, MessagesOf, ToolOf, CacheOf, HitWrites, MessageWrites;
    MessageWritesAre(MessagesOf(sp.attrs, sp.id, next));
    HitWritesAre(env, env.bps, sp);
  }

  ghost predicate GivenBy(env: Env, spans: seq<OtelSpan>, w: Write) {
    exists sp :: sp in spans && Gives(env, sp, w)
  }

  lemma {:induction false} SpansGive(env: Env, spans: seq<OtelSpan>, next: Ulid, w: Write)
    requires IsSpanData(w)
    ensures w in SpansWrites(env, spans, next) <==> GivenBy(env, spans, w)
    decreases |spans|
  {
    hide SpanWrites, MessagesOf, Gives;
    if |spans| > 0 {
      SpanGives(env, spans[0], next, w);
      SpansGive(env, spans[1..], next + |MessagesOf(spans[0].attrs, spans[0].id, next)|, w);
      assert forall sp :: sp in spans <==> sp == spans[0] || sp in spans[1..];
    }
  }

  lemma GivenJoin(env: Env, a: seq<OtelSpan>, b: seq<OtelSpan>, w: Write)
    ensures GivenBy(env, a + b, w) <==> GivenBy(env, a, w) || GivenBy(env, b, w)
  {
    hide Gives;
    assert forall sp :: sp in a + b <==> sp in a || sp in b;
  }

  lemma {:induction false} GroupsGive(env: Env, o: Origin, gs: seq<Bucket>, next: Ulid, w: Write)
    requires IsSpanData(w)
    ensures w in GroupsWrites(env, o, gs, next) <==> GivenBy(env, AllOf(gs), w)
    decreases |gs|
  {
    hide SpansWrites, TraceRow, Gives;
    if |gs| > 0 {
      SpansGive(env, gs[0].spans, next, w);
      GroupsGive(env, o, gs[1..], NextAfter(gs[0].spans, next), w);
      GivenJoin(env, gs[0].spans, AllOf(gs[1..]), w);
    }
  }

  lemma ResourceGives(env: Env, o: Origin, r: Resource, next: Ulid, w: Write)
    requires IsSpanData(w)
    ensures w in GroupsWrites(env, o, Buckets(r), next) <==> GivenBy(env, Flatten(r.scopes), w)
  {
    hide GroupsWrites, Gives, Buckets, Flatten, AllOf;
    GroupsGive(env, o, Buckets(r), next, w);
    BucketsByTrace(r);
    forall sp ensures sp in AllOf(Buckets(r)) <==> sp in Flatten(r.scopes) {
      assert sp in multiset(AllOf(Buckets(r))) <==> sp in multiset(Flatten(r.scopes));
    }
  }

  /** The span, tool-call and cache rows a request writes are those of the
      spans in it. */
  lemma {:induction false} RequestGives(env: Env, req: Request, ps: seq<Project>, next: Ulid, w: Write)
    requires IsSpanData(w)
    ensures w in RequestWrites(env, req, ps, next) <==> GivenBy(env, HitCounts.AllSpans(req), w)
    decreases |req|
  {
    hide GroupsWrites, Buckets, OriginOf, ProjectName, ResolveProject, Unnamed, Gives, Flatten, NextAfterGroups;
    if |req| > 0 {
      var name, gs := ProjectName(req[0].attrs), Buckets(req[0]);
      GivenJoin(env, Flatten(req[0].scopes), HitCounts.AllSpans(req[1..]), w);
      match ResolveProject(ps, name)
      case Some(id) =>
        ResourceGives(env, OriginOf(req[0], id), req[0], next, w);
        RequestGives(env, req[1..], ps, NextAfterGroups(gs, next), w);
      case None =>
        ResourceGives(env, OriginOf(req[0], next), req[0], next + 1, w);
        RequestGives(env, req[1..], ps + [Project(next, name)], NextAfterGroups(gs, next + 1), w);
    }
  }

  lemma GivesOwnId(env: Env, sp: OtelSpan, w: Write)
    requires Gives(env, sp, w)
    ensures w.PutSpan? ==> w.span.id == sp.id && w.span.trace == sp.trace
    ensures w.PutTool? ==> w.tool.span == sp.id
  {
    IngestRun.MapSpanId(env.host, sp);
    hide MapSpan, CacheOf;
  }

  // ---------- one delivery after the other ----------

  /** A request with the surroundings it is ingested in and its id source. */
  datatype Batch = Batch(env: Env, req: Request, next: Ulid)

  function SpansIn(b: Batch): seq<OtelSpan> { HitCounts.AllSpans(b.req) }

  function WritesOf(db: Tables, b: Batch): seq<Write> { RequestWrites(b.env, b.req, db.projects, b.next) }

  /** The store after a delivery, which may have been cut short. */
  function After(db: Tables, b: Batch): Tables { Run(db, WritesOf(db, b)).db }

  function AfterAll(db: Tables, bs: seq<Batch>): Tables
    decreases |bs|
  {
    if |bs| == 0 then db else AfterAll(After(db, bs[0]), bs[1..])
  }

  /** The store rejects no span of the request. */
  predicate Whole(b: Batch) {
    forall sp :: sp in SpansIn(b) ==> GroupOrder.SpanAccepted(b.env, sp)
  }

  lemma AcceptedGives(env: Env, sp: OtelSpan)
    ensures GroupOrder.SpanAccepted(env, sp) <==> forall w :: Gives(env, sp, w) ==> Accepts(w)
  {
    hide MapSpan, ToolOf, CacheOf;
    assert Gives(env, sp, PutSpan(MapSpan(env.host, sp)));
    var c := CacheOf(env.host, sp, env.now);
    if c.Some? { assert Gives(env, sp, PutCache(c.value)); }
  }

  /** A delivery is ingested to its end exactly when none of its spans is
      rejected, whatever the store held before. */
  lemma WholeIsAccepted(db: Tables, b: Batch)
    ensures Run(db, WritesOf(db, b)).ok <==> Whole(b)
  {
    hide Gives, SpansIn, GroupOrder.SpanAccepted, RequestWrites, Run;
    var ws := WritesOf(db, b);
    RunOk(db, ws);
    if AllAccepted(ws) {
      forall sp | sp in SpansIn(b) ensures GroupOrder.SpanAccepted(b.env, sp) {
        AcceptedGives(b.env, sp);
        forall w | Gives(b.env, sp, w) ensures Accepts(w) {
          if IsSpanData(w) { GivenIn(db, b, sp, w); }
        }
      }
    }
    if Whole(b) {
      forall w | w in ws ensures Accepts(w) {
        if IsSpanData(w) {
          var sp := GiverOf(db, b, w);
          AcceptedGives(b.env, sp);
        }
      }
    }
  }

  lemma GivenIn(db: Tables, b: Batch, sp: OtelSpan, w: Write)
    requires sp in SpansIn(b) && Gives(b.env, sp, w) && IsSpanData(w)
    ensures w in WritesOf(db, b)
  {
    hide Gives, RequestWrites;
    RequestGives(b.env, b.req, db.projects, b.next, w);
  }

  lemma GiverOf(db: Tables, b: Batch, w: Write) returns (sp: OtelSpan)
    requires w in WritesOf(db, b) && IsSpanData(w)
    ensures sp in SpansIn(b) && Gives(b.env, sp, w)
  {
    hide Gives, RequestWrites;
    RequestGives(b.env, b.req, db.projects, b.next, w);
    sp :| sp in SpansIn(b) && Gives(b.env, sp, w);
  }

  /** The writes up to the first rejected one. */
  function Performed(ws: seq<Write>): seq<Write> {
    if |ws| == 0 || !Accepts(ws[0]) then [] else [ws[0]] + Performed(ws[1..])
  }

  lemma {:induction false} RunIsPerformed(db: Tables, ws: seq<Write>)
    ensures Run(db, ws).db == ApplyAll(db, Performed(ws))
    ensures forall w :: w in Performed(ws) ==> w in ws
    ensures Run(db, ws).ok ==> Performed(ws) == ws
    decreases |ws|
  {
    hide Apply, Accepts;
    if |ws| > 0 && Accepts(ws[0]) {
      RunIsPerformed(Apply(db, ws[0]), ws[1..]);
      assert Performed(ws)[1..] == Performed(ws[1..]);
    }
  }

  /** The writes the deliveries make, in order. */
  function HistoryWrites(db: Tables, bs: seq<Batch>): seq<Write>
    decreases |bs|
  {
    if |bs| == 0 then [] else Performed(WritesOf(db, bs[0])) + HistoryWrites(After(db, bs[0]), bs[1..])
  }

  lemma {:induction false} ApplyJoin(db: Tables, a: seq<Write>, b: seq<Write>)
    ensures ApplyAll(db, a + b) == ApplyAll(ApplyAll(db, a), b)
    decreases |a|
  {
    hide Apply;
    if |a| == 0 {
      assert a + b == b;
    } else {
      assert (a + b)[0] == a[0] && (a + b)[1..] == a[1..] + b;
      ApplyJoin(Apply(db, a[0]), a[1..], b);
    }
  }

  lemma {:induction false} AfterIsWrites(db: Tables, bs: seq<Batch>)
    ensures AfterAll(db, bs) == ApplyAll(db, HistoryWrites(db, bs))
    decreases |bs|
  {
    hide WritesOf, Run, Performed;
    if |bs| > 0 {
      RunIsPerformed(db, WritesOf(db, bs[0]));
      AfterIsWrites(After(db, bs[0]), bs[1..]);
      ApplyJoin(db, Performed(WritesOf(db, bs[0])), HistoryWrites(After(db, bs[0]), bs[1..]));
    }
  }

  /** Every row written for a span is written for a span of some delivery. */
  lemma {:induction false} HistoryGiver(db: Tables, bs: seq<Batch>, w: Write) returns (b: Batch, sp: OtelSpan)
    requires w in HistoryWrites(db, bs) && IsSpanData(w)
    ensures b in bs && sp in SpansIn(b) && Gives(b.env, sp, w)
    decreases |bs|
  {
    hide WritesOf, Run, Performed, Gives, SpansIn;
    RunIsPerformed(db, WritesOf(db, bs[0]));
    if w in Performed(WritesOf(db, bs[0])) {
      b := bs[0];
      sp := GiverOf(db, b, w);
    } else {
      b, sp := HistoryGiver(After(db, bs[0]), bs[1..], w);
    }
  }

  /** The rows of the spans of a delivery that is not cut short are written. */
  lemma {:induction false} HistoryGives(db: Tables, bs: seq<Batch>, b: Batch, sp: OtelSpan, w: Write)
    requires b in bs && Whole(b) && sp in SpansIn(b) && Gives(b.env, sp, w) && IsSpanData(w)
    ensures w in HistoryWrites(db, bs)
    decreases |bs|
  {
    hide WritesOf, Run, Performed, Gives, SpansIn, Whole;
    if b == bs[0] {
      WholeIsAccepted(db, b);
      RunIsPerformed(db, WritesOf(db, b));
      GivenIn(db, b, sp, w);
    } else {
      HistoryGives(After(db, bs[0]), bs[1..], b, sp, w);
    }
  }
}
