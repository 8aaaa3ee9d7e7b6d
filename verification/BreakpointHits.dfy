/** What a batch adds to the counters of breakpoints, also if it is cut short. */
module BreakpointHits {
  import opened Db
  import opened Deliveries
  import opened GroupOrder
  import opened HitCounts
  import opened Ingest
  import opened IngestLaws
  import IngestRun
  import Sums

  /** The spans before the first rejected one. */
  function Completed(env: Env, sps: seq<OtelSpan>): seq<OtelSpan> {
    if |sps| == 0 || !SpanAccepted(env, sps[0]) then [] else [sps[0]] + Completed(env, sps[1..])
  }

  lemma {:induction false} CompletedJoin(env: Env, x: seq<OtelSpan>, y: seq<OtelSpan>)
    ensures Completed(env, x + y) == if GroupAccepted(env, x) then x + Completed(env, y) else Completed(env, x)
  {
    hide SpanAccepted;
    if |x| == 0 {
      assert x + y == y;
    } else {
      assert (x + y)[0] == x[0] && (x + y)[1..] == x[1..] + y;
      CompletedJoin(env, x[1..], y);
      assert forall sp :: sp in x <==> sp == x[0] || sp in x[1..];
    }
  }

  lemma {:induction false} PerformedJoin(a: seq<Write>, b: seq<Write>)
    ensures Performed(a + b) == if AllAccepted(a) then a + Performed(b) else Performed(a)
  {
    hide Accepts;
    if |a| == 0 {
      assert a + b == b;
    } else {
      assert (a + b)[0] == a[0] && (a + b)[1..] == a[1..] + b;
      PerformedJoin(a[1..], b);
      assert forall w :: w in a <==> w == a[0] || w in a[1..];
    }
  }

  lemma {:induction false} PerformedWithin(ws: seq<Write>)
    ensures forall w :: w in Performed(ws) ==> w in ws
  {
    hide Accepts;
    if |ws| > 0 { PerformedWithin(ws[1..]); }
  }

  /** The hits of a span come after all that can be rejected of it. */
  lemma SpanHitsKept(env: Env, sp: OtelSpan, next: Ulid, b: Ulid)
    requires !SpanAccepted(env, sp)
    ensures HitsOf(b, Performed(SpanWrites(env, sp, next))) == []
  {
    SpanAccepts(env, sp, next);
    hide MapSpan, MessagesOf, HitWrites, MessageWrites, CacheOf, ToolOf, SpanAccepted, Performed;
    MessageWritesAre(MessagesOf(sp.attrs, sp.id, next));
    HitWritesAre(env, env.bps, sp);
    var quiet := [PutSpan(MapSpan(env.host, sp))] + MessageWrites(MessagesOf(sp.attrs, sp.id, next))
                 + ToolWrites(env, sp) + CacheWrites(env, sp);
    PerformedJoin(quiet, HitWrites(env, env.bps, sp));
    AcceptedJoin(quiet, HitWrites(env, env.bps, sp));
    PerformedWithin(quiet);
    NoHits(b, Performed(quiet));
  }

  lemma {:induction false} SpansHitsKept(env: Env, spans: seq<OtelSpan>, next: Ulid, b: Ulid)
    requires DistinctBps(env.bps)
    ensures HitsOf(b, Performed(SpansWrites(env, spans, next)))
         == MatchList(ExprOf(env.bps, b), env.host, Completed(env, spans))
    decreases |spans|
  {
    hide SpanWrites, MessagesOf, Matches, SpanAccepted, AllAccepted, MatchList, ExprOf;
    if |spans| == 0 {
      EmptyMatch(ExprOf(env.bps, b), env.host);
    } else {
      var id := next + |MessagesOf(spans[0].attrs, spans[0].id, next)|;
      var w, rest := SpanWrites(env, spans[0], next), SpansWrites(env, spans[1..], id);
      SpanAccepts(env, spans[0], next);
      PerformedJoin(w, rest);
      if SpanAccepted(env, spans[0]) {
        SpanHits(env, spans[0], next, b);
        SpansHitsKept(env, spans[1..], id, b);
        HitsJoin(b, w, Performed(rest));
        MatchJoin(ExprOf(env.bps, b), env.host, [spans[0]], Completed(env, spans[1..]));
      } else {
        SpanHitsKept(env, spans[0], next, b);
        EmptyMatch(ExprOf(env.bps, b), env.host);
      }
    }
  }

  lemma GroupHitsKept(env: Env, o: Origin, g: Bucket, next: Ulid, b: Ulid)
    requires DistinctBps(env.bps)
    ensures var w := GroupWrites(env, o, g, next);
            && HitsOf(b, Performed(w)) == MatchList(ExprOf(env.bps, b), env.host, Completed(env, g.spans))
            && (AllAccepted(w) <==> GroupAccepted(env, g.spans))
  {
    var row := PutTrace(TraceRow(env, o, g));
    assert AllAccepted([row]);
    hide SpansWrites, TraceRow, MatchList, ExprOf, GroupAccepted, AllAccepted, Performed;
    var rest := SpansWrites(env, g.spans, next);
    PerformedJoin([row], rest);
    AcceptedJoin([row], rest);
    SpansAccept(env, g.spans, next);
    SpansHitsKept(env, g.spans, next, b);
    NoHits(b, [row]);
    HitsJoin(b, [row], Performed(rest));
    assert [] + HitsOf(b, Performed(rest)) == HitsOf(b, Performed(rest));
  }

  lemma {:induction false} GroupsHitsKept(env: Env, o: Origin, gs: seq<Bucket>, next: Ulid, b: Ulid)
    requires DistinctBps(env.bps)
    ensures var w := GroupsWrites(env, o, gs, next);
            && HitsOf(b, Performed(w)) == MatchList(ExprOf(env.bps, b), env.host, Completed(env, AllOf(gs)))
            && (AllAccepted(w) <==> GroupAccepted(env, AllOf(gs)))
    decreases |gs|
  {
    if |gs| == 0 {
      EmptyMatch(ExprOf(env.bps, b), env.host);
    } else {
      hide GroupWrites, MatchList, ExprOf, SpanAccepted, AllAccepted, Performed;
      var id, all := NextAfter(gs[0].spans, next), AllOf(gs[1..]);
      var w, rest := GroupWrites(env, o, gs[0], next), GroupsWrites(env, o, gs[1..], id);
      GroupHitsKept(env, o, gs[0], next, b);
      GroupsHitsKept(env, o, gs[1..], id, b);
      GroupHits(env, o, gs[0], next, b);
      PartsHitsKept(env, w, rest, gs[0].spans, all, b);
      AcceptedJoin(w, rest);
      assert forall sp :: sp in gs[0].spans + all <==> sp in gs[0].spans || sp in all;
    }
  }

  lemma GroupHits(env: Env, o: Origin, g: Bucket, next: Ulid, b: Ulid)
    requires DistinctBps(env.bps)
    ensures HitsOf(b, GroupWrites(env, o, g, next)) == MatchList(ExprOf(env.bps, b), env.host, g.spans)
  {
    hide SpansWrites, TraceRow, MatchList, ExprOf;
    SpansHits(env, g.spans, next, b);
    NoHits(b, [PutTrace(TraceRow(env, o, g))]);
    HitsJoin(b, [PutTrace(TraceRow(env, o, g))], SpansWrites(env, g.spans, next));
    assert [] + HitsOf(b, SpansWrites(env, g.spans, next)) == HitsOf(b, SpansWrites(env, g.spans, next));
  }

  /** Two lists of writes, for two lists of spans, one after the other. */
  lemma PartsHitsKept(env: Env, v: seq<Write>, w: seq<Write>, x: seq<OtelSpan>, y: seq<OtelSpan>, b: Ulid)
    requires AllAccepted(v) <==> GroupAccepted(env, x)
    requires HitsOf(b, v) == MatchList(ExprOf(env.bps, b), env.host, x)
    requires HitsOf(b, Performed(v)) == MatchList(ExprOf(env.bps, b), env.host, Completed(env, x))
    requires HitsOf(b, Performed(w)) == MatchList(ExprOf(env.bps, b), env.host, Completed(env, y))
    ensures HitsOf(b, Performed(v + w)) == MatchList(ExprOf(env.bps, b), env.host, Completed(env, x + y))
  {
    hide MatchList, ExprOf, GroupAccepted, AllAccepted, Performed, HitsOf, Completed;
    PerformedJoin(v, w);
    CompletedJoin(env, x, y);
    HitsJoin(b, v, Performed(w));
    MatchJoin(ExprOf(env.bps, b), env.host, x, Completed(env, y));
  }

  /** The hits a request records are those of the spans before the first rejected
      one, in the order they are ingested. */
  lemma {:induction false} RequestHitsKept(env: Env, req: Request, ps: seq<Project>, next: Ulid, b: Ulid)
    requires DistinctBps(env.bps)
    ensures HitsOf(b, Performed(RequestWrites(env, req, ps, next)))
         == MatchList(ExprOf(env.bps, b), env.host, Completed(env, Occurrences(req)))
    decreases |req|
  {
    hide GroupsWrites, Buckets, OriginOf, ProjectName, MatchList, ExprOf, ResolveProject, Unnamed, SpanAccepted,
         AllAccepted, Performed, NextAfterGroups;
    if |req| == 0 {
      NothingKept(env, b);
    } else {
      var gs := Buckets(req[0]);
      match ResolveProject(ps, ProjectName(req[0].attrs))
      case Some(id) =>
        var o, id2 := OriginOf(req[0], id), NextAfterGroups(gs, next);
        GroupsHitsKept(env, o, gs, next, b);
        GroupsHits(env, o, gs, next, b);
        RequestHitsKept(env, req[1..], ps, id2, b);
        PartsHitsKept(env, GroupsWrites(env, o, gs, next), RequestWrites(env, req[1..], ps, id2),
                      AllOf(gs), Occurrences(req[1..]), b);
      case None =>
        var p, o := Project(next, ProjectName(req[0].attrs)), OriginOf(req[0], next);
        var id2 := NextAfterGroups(gs, next + 1);
        var mine, others := GroupsWrites(env, o, gs, next + 1), RequestWrites(env, req[1..], ps + [p], id2);
        GroupsHitsKept(env, o, gs, next + 1, b);
        GroupsHits(env, o, gs, next + 1, b);
        RequestHitsKept(env, req[1..], ps + [p], id2, b);
        PartsHitsKept(env, mine, others, AllOf(gs), Occurrences(req[1..]), b);
        ProjectKept(p, mine + others, b);
        assert [PutProject(p)] + mine + others == [PutProject(p)] + (mine + others);
    }
  }

  lemma NothingKept(env: Env, b: Ulid)
    ensures HitsOf(b, Performed([])) == MatchList(ExprOf(env.bps, b), env.host, Completed(env, []))
  {
    EmptyMatch(ExprOf(env.bps, b), env.host);
  }

  lemma ProjectKept(p: Project, ws: seq<Write>, b: Ulid)
    ensures HitsOf(b, Performed([PutProject(p)] + ws)) == HitsOf(b, Performed(ws))
  {
    assert AllAccepted([PutProject(p)]);
    hide AllAccepted, Performed;
    PerformedJoin([PutProject(p)], ws);
    NoHits(b, [PutProject(p)]);
    HitsJoin(b, [PutProject(p)], Performed(ws));
    assert [] + HitsOf(b, Performed(ws)) == HitsOf(b, Performed(ws));
  }

  /** A batch adds to each breakpoint's counter the number of matching spans among
      those ingested before the first rejected one, repeated ones each time, and
      leaves the pointer at the last match. Disabled and unparsable ones stay as
      they are. If nothing is rejected, these are all the spans of the request. */
  lemma BatchCountsMatches(db: Tables, env: Env, req: Request, next: Ulid, xs: seq<(Ulid, string)>, b: Ulid)
    requires b in db.bps && ListsEnabled(db.bps, xs) && env.bps == IngestRun.Compiled(xs, env.host.chars)
    ensures var run := Run(db, RequestWrites(env, req, db.projects, next));
            var e := ActiveExpr(db.bps[b], env.host.chars);
            && b in run.db.bps
            && CountedUp(db.bps[b], run.db.bps[b], MatchList(e, env.host, Completed(env, Occurrences(req))))
            && (run.ok ==> run.db.bps[b].hits == db.bps[b].hits + Sums.Sum(AllSpans(req), MatchOne(e, env.host)))
  {
    hide RequestWrites, Occurrences, AllSpans, MatchList, ActiveExpr, ListsEnabled, DistinctBps, Run, Performed,
         Completed, GroupAccepted;
    var ws := RequestWrites(env, req, db.projects, next);
    var e := ActiveExpr(db.bps[b], env.host.chars);
    ActiveIsCompiled(db.bps, xs, env.host.chars, b);
    RunIsPerformed(db, ws);
    RequestWritesKinds(env, req, db.projects, next);
    WritesCount(db, Performed(ws), b);
    RequestHitsKept(env, req, db.projects, next, b);
    if Run(db, ws).ok {
      RequestHits(env, req, db.projects, next, b);
      MatchListCount(e, env.host, Occurrences(req));
      OccurrencesPermute(req);
      Sums.SumPermuted(Occurrences(req), AllSpans(req), MatchOne(e, env.host));
    }
  }
}
