/**
 Breakpoint counters: which hits a list of writes records, which hits a request
 would record if none of its writes were rejected, and which of the breakpoints
 that are stored a batch compiles at its start.
 */
module HitCounts {
  import opened Spans
  import opened Db
  import opened Ingest
  import opened IngestLaws
  import IngestRun
  import BP = Breakpoint
  import Lexer
  import Sums

  /** The hits a list of writes records for breakpoint b. */
  function HitsOf(b: Ulid, ws: seq<Write>): seq<(SpanId, TraceId)> {
    if |ws| == 0 then []
    else if ws[0].Hit? && ws[0].id == b then [(ws[0].spanId, ws[0].traceId)] + HitsOf(b, ws[1..])
    else HitsOf(b, ws[1..])
  }

  lemma {:induction false} HitsJoin(b: Ulid, x: seq<Write>, y: seq<Write>)
    ensures HitsOf(b, x + y) == HitsOf(b, x) + HitsOf(b, y)
  {
    if |x| == 0 {
      assert x + y == y;
    } else {
      assert (x + y)[0] == x[0] && (x + y)[1..] == x[1..] + y;
      HitsJoin(b, x[1..], y);
    }
  }

  lemma {:induction false} NoHits(b: Ulid, ws: seq<Write>)
    requires forall w :: w in ws ==> !w.Hit?
    ensures HitsOf(b, ws) == []
  {
    if |ws| > 0 { NoHits(b, ws[1..]); }
  }

  lemma {:induction false} RunIsApplyAll(db: Tables, ws: seq<Write>)
    requires Run(db, ws).ok
    ensures Run(db, ws).db == ApplyAll(db, ws)
    decreases |ws|
  {
    hide Apply;
    if |ws| > 0 { RunIsApplyAll(Apply(db, ws[0]), ws[1..]); }
  }

  /** The row after the given hits: the counter grows, the pointer moves. */
  ghost predicate CountedUp(before: BpRow, after: BpRow, hits: seq<(SpanId, TraceId)>) {
    && after.hits == before.hits + |hits|
    && after.enabled == before.enabled && after.dsl == before.dsl
    && (if |hits| == 0 then after == before
        else after.lastSpan == Some(hits[|hits| - 1].0) && after.lastTrace == Some(hits[|hits| - 1].1))
  }

  lemma OneWriteCounts(db: Tables, w: Write, b: Ulid)
    requires b in db.bps && !w.AddBp? && !w.DeleteBp?
    ensures b in Apply(db, w).bps && CountedUp(db.bps[b], Apply(db, w).bps[b], HitsOf(b, [w]))
  {}

  lemma {:induction false} WritesCount(db: Tables, ws: seq<Write>, b: Ulid)
    requires b in db.bps && forall w :: w in ws ==> !w.AddBp? && !w.DeleteBp?
    ensures b in ApplyAll(db, ws).bps && CountedUp(db.bps[b], ApplyAll(db, ws).bps[b], HitsOf(b, ws))
    decreases |ws|
  {
    hide Apply;
    if |ws| > 0 {
      assert ws[0] in ws;
      OneWriteCounts(db, ws[0], b);
      WritesCount(Apply(db, ws[0]), ws[1..], b);
      assert ws == [ws[0]] + ws[1..];
      HitsJoin(b, [ws[0]], ws[1..]);
    }
  }

  // ---------- the hits of a request ----------

  function ExprOf(bps: seq<(Ulid, BP.Expr)>, b: Ulid): Option<BP.Expr> {
    if |bps| == 0 then None else if bps[0].0 == b then Some(bps[0].1) else ExprOf(bps[1..], b)
  }

  function MatchList(e: Option<BP.Expr>, h: Host, spans: seq<OtelSpan>): seq<(SpanId, TraceId)> {
    if |spans| == 0 then []
    else if e.Some? && Matches(e.value, h, spans[0]) then [(spans[0].id, spans[0].trace)] + MatchList(e, h, spans[1..])
    else MatchList(e, h, spans[1..])
  }

  lemma {:induction false} MatchJoin(e: Option<BP.Expr>, h: Host, x: seq<OtelSpan>, y: seq<OtelSpan>)
    ensures MatchList(e, h, x + y) == MatchList(e, h, x) + MatchList(e, h, y)
  {
    hide Matches;
    if |x| == 0 {
      assert x + y == y;
    } else {
      assert (x + y)[0] == x[0] && (x + y)[1..] == x[1..] + y;
      MatchJoin(e, h, x[1..], y);
    }
  }

  ghost predicate DistinctBps(bps: seq<(Ulid, BP.Expr)>) {
    forall i, j :: 0 <= i < j < |bps| ==> bps[i].0 != bps[j].0
  }

  lemma {:induction false} HitWritesMatch(env: Env, bps: seq<(Ulid, BP.Expr)>, sp: OtelSpan, b: Ulid)
    requires DistinctBps(bps)
    ensures HitsOf(b, HitWrites(env, bps, sp)) == MatchList(ExprOf(bps, b), env.host, [sp])
  {
    hide Matches;
    if |bps| > 0 {
      HitWritesMatch(env, bps[1..], sp, b);
      var rest := HitWrites(env, bps[1..], sp);
      HitsJoin(b, [Hit(bps[0].0, sp.id, sp.trace, env.now)], rest);
      if bps[0].0 == b { AbsentExpr(bps[1..], b); }
    }
  }

  lemma {:induction false} AbsentExpr(bps: seq<(Ulid, BP.Expr)>, b: Ulid)
    requires forall x :: x in bps ==> x.0 != b
    ensures ExprOf(bps, b) == None
  {
    if |bps| > 0 { AbsentExpr(bps[1..], b); }
  }

  lemma SpanHits(env: Env, sp: OtelSpan, next: Ulid, b: Ulid)
    requires DistinctBps(env.bps)
    ensures HitsOf(b, SpanWrites(env, sp, next)) == MatchList(ExprOf(env.bps, b), env.host, [sp])
  {
    hide MapSpan, MessagesOf, HitWrites, MessageWrites, CacheOf, ToolOf, MatchList, ExprOf;
    MessageWritesAre(MessagesOf(sp.attrs, sp.id, next));
    var quiet := [PutSpan(MapSpan(env.host, sp))] + MessageWrites(MessagesOf(sp.attrs, sp.id, next))
                 + ToolWrites(env, sp) + CacheWrites(env, sp);
    NoHits(b, quiet);
    HitsJoin(b, quiet, HitWrites(env, env.bps, sp));
    HitWritesMatch(env, env.bps, sp, b);
    assert [] + MatchList(ExprOf(env.bps, b), env.host, [sp]) == MatchList(ExprOf(env.bps, b), env.host, [sp]);
  }

  lemma {:induction false} SpansHits(env: Env, spans: seq<OtelSpan>, next: Ulid, b: Ulid)
    requires DistinctBps(env.bps)
    ensures HitsOf(b, SpansWrites(env, spans, next)) == MatchList(ExprOf(env.bps, b), env.host, spans)
  {
    hide SpanWrites, MessagesOf, Matches;
    if |spans| > 0 {
      var id := next + |MessagesOf(spans[0].attrs, spans[0].id, next)|;
      SpanHits(env, spans[0], next, b);
      SpansHits(env, spans[1..], id, b);
      HitsJoin(b, SpanWrites(env, spans[0], next), SpansWrites(env, spans[1..], id));
      assert spans == [spans[0]] + spans[1..];
      MatchJoin(ExprOf(env.bps, b), env.host, [spans[0]], spans[1..]);
    }
  }

  lemma {:induction false} GroupsHits(env: Env, o: Origin, gs: seq<Bucket>, next: Ulid, b: Ulid)
    requires DistinctBps(env.bps)
    ensures HitsOf(b, GroupsWrites(env, o, gs, next)) == MatchList(ExprOf(env.bps, b), env.host, AllOf(gs))
  {
    hide SpansWrites, TraceRow, MatchList, ExprOf;
    if |gs| == 0 {
      EmptyMatch(ExprOf(env.bps, b), env.host);
    } else {
      var spans := SpansWrites(env, gs[0].spans, next);
      var id := NextAfter(gs[0].spans, next);
      SpansHits(env, gs[0].spans, next, b);
      HitsJoin(b, [PutTrace(TraceRow(env, o, gs[0]))], spans);
      NoHits(b, [PutTrace(TraceRow(env, o, gs[0]))]);
      assert [] + HitsOf(b, spans) == HitsOf(b, spans);
      GroupsHits(env, o, gs[1..], id, b);
      HitsJoin(b, GroupWrites(env, o, gs[0], next), GroupsWrites(env, o, gs[1..], id));
      MatchJoin(ExprOf(env.bps, b), env.host, gs[0].spans, AllOf(gs[1..]));
    }
  }

  lemma EmptyMatch(e: Option<BP.Expr>, h: Host)
    ensures MatchList(e, h, []) == []
  {}

  /** The spans of the request in the order they are ingested. */
  function Occurrences(req: Request): seq<OtelSpan> {
    if |req| == 0 then [] else AllOf(Buckets(req[0])) + Occurrences(req[1..])
  }

  /** The spans of the request as they stand in it. */
  function AllSpans(req: Request): seq<OtelSpan> {
    if |req| == 0 then [] else Flatten(req[0].scopes) + AllSpans(req[1..])
  }

  lemma {:induction false} OccurrencesPermute(req: Request)
    ensures multiset(Occurrences(req)) == multiset(AllSpans(req))
  {
    hide Buckets, Flatten, AllOf;
    if |req| > 0 {
      BucketsByTrace(req[0]);
      OccurrencesPermute(req[1..]);
    }
  }

  lemma {:induction false} RequestHits(env: Env, req: Request, ps: seq<Project>, next: Ulid, b: Ulid)
    requires DistinctBps(env.bps)
    ensures HitsOf(b, RequestWrites(env, req, ps, next)) == MatchList(ExprOf(env.bps, b), env.host, Occurrences(req))
    decreases |req|
  {
    hide GroupsWrites, Buckets, OriginOf, ProjectName, MatchList, ExprOf, ResolveProject;
    if |req| == 0 {
      EmptyMatch(ExprOf(env.bps, b), env.host);
    } else {
      var gs := Buckets(req[0]);
      MatchJoin(ExprOf(env.bps, b), env.host, AllOf(gs), Occurrences(req[1..]));
      match ResolveProject(ps, ProjectName(req[0].attrs))
      case Some(id) =>
        var mine := GroupsWrites(env, OriginOf(req[0], id), gs, next);
        var others := RequestWrites(env, req[1..], ps, NextAfterGroups(gs, next));
        GroupsHits(env, OriginOf(req[0], id), gs, next, b);
        RequestHits(env, req[1..], ps, NextAfterGroups(gs, next), b);
        HitsJoin(b, mine, others);
      case None =>
        var p := Project(next, ProjectName(req[0].attrs));
        var mine := GroupsWrites(env, OriginOf(req[0], next), gs, next + 1);
        var others := RequestWrites(env, req[1..], ps + [p], NextAfterGroups(gs, next + 1));
        GroupsHits(env, OriginOf(req[0], next), gs, next + 1, b);
        RequestHits(env, req[1..], ps + [p], NextAfterGroups(gs, next + 1), b);
        NoHits(b, [PutProject(p)]);
        HitsJoin(b, [PutProject(p)], mine);
        HitsJoin(b, [PutProject(p)] + mine, others);
        assert [] + HitsOf(b, mine) == HitsOf(b, mine);
    }
  }

  // ---------- which breakpoints are compiled ----------

  lemma {:induction false} CompiledIds(xs: seq<(Ulid, string)>, ch: Lexer.Chars)
    requires forall i, j :: 0 <= i < j < |xs| ==> xs[i].0 != xs[j].0
    ensures DistinctBps(IngestRun.Compiled(xs, ch))
    ensures forall x :: x in IngestRun.Compiled(xs, ch) ==> exists k :: 0 <= k < |xs| && xs[k].0 == x.0
  {
    hide Lexer.ParseSource;
    if |xs| > 0 {
      CompiledIds(xs[1..], ch);
      var rest := IngestRun.Compiled(xs[1..], ch);
      forall x | x in rest ensures x.0 != xs[0].0 && exists k :: 0 <= k < |xs| && xs[k].0 == x.0 {
        var k :| 0 <= k < |xs[1..]| && xs[1..][k].0 == x.0;
        assert xs[k + 1].0 == x.0;
      }
    }
  }

  lemma {:induction false} CompiledNone(xs: seq<(Ulid, string)>, ch: Lexer.Chars, b: Ulid)
    requires forall k :: 0 <= k < |xs| ==> xs[k].0 != b
    ensures ExprOf(IngestRun.Compiled(xs, ch), b) == None
  {
    hide Lexer.ParseSource;
    if |xs| > 0 { CompiledNone(xs[1..], ch, b); }
  }

  lemma {:induction false} CompiledSome(xs: seq<(Ulid, string)>, ch: Lexer.Chars, b: Ulid, k: nat)
    requires k < |xs| && xs[k].0 == b && forall j :: 0 <= j < |xs| && j != k ==> xs[j].0 != b
    ensures var e := Lexer.ParseSource(Lexer.Python, xs[k].1, ch);
            ExprOf(IngestRun.Compiled(xs, ch), b) == if e.Ok? then Some(e.value) else None
  {
    hide Lexer.ParseSource;
    if k == 0 {
      CompiledNone(xs[1..], ch, b);
    } else {
      CompiledSome(xs[1..], ch, b, k - 1);
    }
  }

  /** What breakpoint b is compared with: nothing if disabled or unparsable. */
  function ActiveExpr(row: BpRow, ch: Lexer.Chars): Option<BP.Expr> {
    if !row.enabled then None
    else match Lexer.ParseSource(Lexer.Python, row.dsl, ch) case Ok(e) => Some(e) case Err(_) => None
  }

  function MatchOne(e: Option<BP.Expr>, h: Host): OtelSpan -> int {
    (sp: OtelSpan) => if e.Some? && Matches(e.value, h, sp) then 1 else 0
  }

  lemma {:induction false} MatchListCount(e: Option<BP.Expr>, h: Host, spans: seq<OtelSpan>)
    ensures |MatchList(e, h, spans)| == Sums.Sum(spans, MatchOne(e, h))
  {
    hide Matches;
    if |spans| > 0 { MatchListCount(e, h, spans[1..]); }
  }

  lemma ActiveIsCompiled(bps: map<Ulid, BpRow>, xs: seq<(Ulid, string)>, ch: Lexer.Chars, b: Ulid)
    requires b in bps && ListsEnabled(bps, xs)
    ensures DistinctBps(IngestRun.Compiled(xs, ch))
    ensures ExprOf(IngestRun.Compiled(xs, ch), b) == ActiveExpr(bps[b], ch)
  {
    hide Lexer.ParseSource, DistinctBps;
    CompiledIds(xs, ch);
    if bps[b].enabled {
      var k :| 0 <= k < |xs| && xs[k] == (b, bps[b].dsl);
      CompiledSome(xs, ch, b, k);
    } else {
      forall k | 0 <= k < |xs| ensures xs[k].0 != b {
        assert xs[k] in xs;
      }
      CompiledNone(xs, ch, b);
    }
  }
}
