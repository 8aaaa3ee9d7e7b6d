/**
 What the tables hold after a batch: the last write to each row decides it, groups
 that share no row may be written in any order, and the row of a trace agrees
 with a recomputation from the spans that are stored for it after the batch.
 */
module TraceTotals {
  import opened Spans
  import opened Db
  import opened Ingest
  import opened IngestLaws
  import HitCounts
  import IngestRun
  import Sums
  import Forest

  // ---------- the last write to a row ----------

  datatype Key = KTrace(t: TraceId) | KSpan(s: SpanId) | KTool(s: SpanId)

  function KeyOf(w: Write): Option<Key> {
    match w
    case PutTrace(t) => Some(KTrace(t.id))
    case PutSpan(s) => Some(KSpan(s.id))
    case PutTool(c) => Some(KTool(c.span))
    case _ => None
  }

  /** The stored row under a key, as the write that would put it. */
  function Row(db: Tables, key: Key): Option<Write> {
    match key
    case KTrace(t) => if t in db.traces then Some(PutTrace(db.traces[t])) else None
    case KSpan(s) => if s in db.spans then Some(PutSpan(db.spans[s])) else None
    case KTool(s) => if s in db.tools then Some(PutTool(db.tools[s])) else None
  }

  /** The later of two writes to one row, where there are any. */
  function Later(a: Option<Write>, b: Option<Write>): Option<Write> { if b.Some? then b else a }

  function LastWrite(ws: seq<Write>, key: Key): Option<Write> {
    if |ws| == 0 then None
    else Later(if KeyOf(ws[0]) == Some(key) then Some(ws[0]) else None, LastWrite(ws[1..], key))
  }

  lemma {:induction false} LastJoin(a: seq<Write>, b: seq<Write>, key: Key)
    ensures LastWrite(a + b, key) == Later(LastWrite(a, key), LastWrite(b, key))
  {
    hide KeyOf;
    if |a| == 0 {
      assert a + b == b;
    } else {
      assert (a + b)[0] == a[0] && (a + b)[1..] == a[1..] + b;
      LastJoin(a[1..], b, key);
    }
  }

  lemma OneRow(db: Tables, w: Write, key: Key)
    ensures Row(Apply(db, w), key) == if KeyOf(w) == Some(key) then Some(w) else Row(db, key)
  {}

  lemma {:induction false} RowAfter(db: Tables, ws: seq<Write>, key: Key)
    ensures Row(ApplyAll(db, ws), key) == Later(Row(db, key), LastWrite(ws, key))
    decreases |ws|
  {
    hide Apply, Row, KeyOf;
    if |ws| > 0 {
      OneRow(db, ws[0], key);
      RowAfter(Apply(db, ws[0]), ws[1..], key);
    }
  }

  lemma SameRowsSameTables(a: Tables, b: Tables)
    requires forall key :: Row(a, key) == Row(b, key)
    ensures a.traces == b.traces && a.spans == b.spans && a.tools == b.tools
  {
    forall t ensures t in a.traces <==> t in b.traces {
      assert Row(a, KTrace(t)) == Row(b, KTrace(t));
    }
    forall t | t in a.traces ensures a.traces[t] == b.traces[t] {
      assert Row(a, KTrace(t)) == Row(b, KTrace(t));
    }
    forall s ensures s in a.spans <==> s in b.spans {
      assert Row(a, KSpan(s)) == Row(b, KSpan(s));
    }
    forall s | s in a.spans ensures a.spans[s] == b.spans[s] {
      assert Row(a, KSpan(s)) == Row(b, KSpan(s));
    }
    forall s ensures s in a.tools <==> s in b.tools {
      assert Row(a, KTool(s)) == Row(b, KTool(s));
    }
    forall s | s in a.tools ensures a.tools[s] == b.tools[s] {
      assert Row(a, KTool(s)) == Row(b, KTool(s));
    }
  }

  // ---------- what a span, a group and a list of groups write last ----------

  function SpanRow(env: Env, sp: OtelSpan, key: Key): Option<Write> {
    match key
    case KTrace(_) => None
    case KSpan(s) => if s == sp.id then Some(PutSpan(MapSpan(env.host, sp))) else None
    case KTool(s) => if s == sp.id && ToolOf(sp).Some? then Some(PutTool(ToolOf(sp).value)) else None
  }

  function SpansRow(env: Env, spans: seq<OtelSpan>, key: Key): Option<Write> {
    if |spans| == 0 then None else Later(SpanRow(env, spans[0], key), SpansRow(env, spans[1..], key))
  }

  datatype Block = Block(o: Origin, g: Bucket)

  function BlockRow(env: Env, b: Block, key: Key): Option<Write> {
    Later(if key == KTrace(b.g.trace) then Some(PutTrace(TraceRow(env, b.o, b.g))) else None,
          SpansRow(env, b.g.spans, key))
  }

  function BlocksRow(env: Env, bs: seq<Block>, key: Key): Option<Write> {
    if |bs| == 0 then None else Later(BlockRow(env, bs[0], key), BlocksRow(env, bs[1..], key))
  }

  lemma {:induction false} NoKeys(ws: seq<Write>, key: Key)
    requires forall w :: w in ws ==> KeyOf(w) == None
    ensures LastWrite(ws, key) == None
  {
    if |ws| > 0 {
      assert ws[0] in ws;
      NoKeys(ws[1..], key);
    }
  }

  lemma OneLast(w: Write, key: Key)
    ensures LastWrite([w], key) == if KeyOf(w) == Some(key) then Some(w) else None
  {
    assert LastWrite([w][1..], key) == None;
  }

  lemma QuietParts(env: Env, sp: OtelSpan, next: Ulid, key: Key)
    ensures LastWrite(MessageWrites(MessagesOf(sp.attrs, sp.id, next)), key) == None
    ensures LastWrite(CacheWrites(env, sp) + HitWrites(env, env.bps, sp), key) == None
  {
    hide MessagesOf, CacheOf, HitWrites, MessageWrites, LastWrite;
    MessageWritesAre(MessagesOf(sp.attrs, sp.id, next));
    HitWritesAre(env, env.bps, sp);
    NoKeys(MessageWrites(MessagesOf(sp.attrs, sp.id, next)), key);
    NoKeys(CacheWrites(env, sp) + HitWrites(env, env.bps, sp), key);
  }

  lemma LoudParts(env: Env, sp: OtelSpan, key: Key)
    ensures Later(LastWrite([PutSpan(MapSpan(env.host, sp))], key), LastWrite(ToolWrites(env, sp), key))
         == SpanRow(env, sp, key)
  {
    IngestRun.MapSpanId(env.host, sp);
    assert ToolOf(sp).Some? ==> ToolOf(sp).value.span == sp.id;
    hide MapSpan, ToolOf, LastWrite;
    OneLast(PutSpan(MapSpan(env.host, sp)), key);
    if ToolOf(sp).Some? { OneLast(PutTool(ToolOf(sp).value), key); } else { NoKeys([], key); }
  }

  lemma SpanLast(env: Env, sp: OtelSpan, next: Ulid, key: Key)
    ensures LastWrite(SpanWrites(env, sp, next), key) == SpanRow(env, sp, key)
  {
    hide MapSpan, MessagesOf, CacheWrites, ToolWrites, HitWrites, MessageWrites, LastWrite, SpanRow;
    var row, ms := [PutSpan(MapSpan(env.host, sp))], MessageWrites(MessagesOf(sp.attrs, sp.id, next));
    var tool, quiet := ToolWrites(env, sp), CacheWrites(env, sp) + HitWrites(env, env.bps, sp);
    QuietParts(env, sp, next, key);
    LoudParts(env, sp, key);
    assert SpanWrites(env, sp, next) == row + (ms + (tool + quiet));
    LastJoin(row, ms + (tool + quiet), key);
    LastJoin(ms, tool + quiet, key);
    LastJoin(tool, quiet, key);
  }

  lemma {:induction false} SpansLast(env: Env, spans: seq<OtelSpan>, next: Ulid, key: Key)
    ensures LastWrite(SpansWrites(env, spans, next), key) == SpansRow(env, spans, key)
    decreases |spans|
  {
    hide SpanWrites, MessagesOf, SpanRow;
    if |spans| > 0 {
      var id := next + |MessagesOf(spans[0].attrs, spans[0].id, next)|;
      SpanLast(env, spans[0], next, key);
      SpansLast(env, spans[1..], id, key);
      LastJoin(SpanWrites(env, spans[0], next), SpansWrites(env, spans[1..], id), key);
    }
  }

  lemma BlockLast(env: Env, o: Origin, g: Bucket, next: Ulid, key: Key)
    ensures LastWrite(GroupWrites(env, o, g, next), key) == BlockRow(env, Block(o, g), key)
  {
    TraceRowKeys(env, o, g);
    hide SpansWrites, SpansRow, TraceRow;
    var row := PutTrace(TraceRow(env, o, g));
    OneLast(row, key);
    SpansLast(env, g.spans, next, key);
    LastJoin([row], SpansWrites(env, g.spans, next), key);
  }

  function BlocksWith(o: Origin, gs: seq<Bucket>): (bs: seq<Block>)
    ensures |bs| == |gs| && forall k :: 0 <= k < |gs| ==> bs[k] == Block(o, gs[k])
  {
    seq(|gs|, k requires 0 <= k < |gs| => Block(o, gs[k]))
  }

  lemma {:induction false} GroupsLast(env: Env, o: Origin, gs: seq<Bucket>, next: Ulid, key: Key)
    ensures LastWrite(GroupsWrites(env, o, gs, next), key) == BlocksRow(env, BlocksWith(o, gs), key)
    decreases |gs|
  {
    hide GroupWrites, BlockRow;
    if |gs| > 0 {
      var id := NextAfter(gs[0].spans, next);
      BlockLast(env, o, gs[0], next, key);
      GroupsLast(env, o, gs[1..], id, key);
      LastJoin(GroupWrites(env, o, gs[0], next), GroupsWrites(env, o, gs[1..], id), key);
      assert BlocksWith(o, gs)[1..] == BlocksWith(o, gs[1..]);
    }
  }

  // ---------- groups that share no row ----------

  /** No span id occurs in both groups, and they are of different traces. */
  ghost predicate Apart(g: Bucket, h: Bucket) {
    g.trace != h.trace && forall a, b :: a in g.spans && b in h.spans ==> a.id != b.id
  }

  function KeySpan(key: Key): Option<SpanId> {
    match key case KTrace(_) => None case KSpan(s) => Some(s) case KTool(s) => Some(s)
  }

  lemma {:induction false} SpansTouch(env: Env, spans: seq<OtelSpan>, key: Key)
    requires SpansRow(env, spans, key).Some?
    ensures exists sp :: sp in spans && KeySpan(key) == Some(sp.id) && SpanRow(env, sp, key) == SpansRow(env, spans, key)
  {
    if SpansRow(env, spans[1..], key).Some? {
      SpansTouch(env, spans[1..], key);
      var sp :| sp in spans[1..] && KeySpan(key) == Some(sp.id)
                && SpanRow(env, sp, key) == SpansRow(env, spans[1..], key);
      assert sp in spans;
    } else {
      assert spans[0] in spans;
    }
  }

  lemma TouchOnce(env: Env, b: Block, c: Block, key: Key)
    requires Apart(b.g, c.g) && BlockRow(env, b, key).Some?
    ensures BlockRow(env, c, key) == None
  {
    hide TraceRow;
    if SpansRow(env, b.g.spans, key).Some? { SpansTouch(env, b.g.spans, key); }
    if SpansRow(env, c.g.spans, key).Some? { SpansTouch(env, c.g.spans, key); }
  }

  /** A row that only block k can touch holds what block k wrote. */
  lemma {:induction false} OnlyBlock(env: Env, bs: seq<Block>, k: nat, key: Key)
    requires k < |bs| && forall j :: 0 <= j < |bs| && j != k ==> BlockRow(env, bs[j], key) == None
    ensures BlocksRow(env, bs, key) == BlockRow(env, bs[k], key)
  {
    hide BlockRow;
    if k > 0 {
      OnlyBlock(env, bs[1..], k - 1, key);
    } else {
      NoBlock(env, bs[1..], key);
    }
  }

  lemma {:induction false} NoBlock(env: Env, bs: seq<Block>, key: Key)
    requires forall j :: 0 <= j < |bs| ==> BlockRow(env, bs[j], key) == None
    ensures BlocksRow(env, bs, key) == None
  {
    hide BlockRow;
    if |bs| > 0 { NoBlock(env, bs[1..], key); }
  }

  ghost predicate AllApart(gs: seq<Bucket>) {
    forall i, j :: 0 <= i < |gs| && 0 <= j < |gs| && i != j ==> Apart(gs[i], gs[j])
  }

  lemma BlocksRowApart(env: Env, o: Origin, gs: seq<Bucket>, key: Key)
    requires AllApart(gs)
    ensures (forall g :: g in gs ==> BlockRow(env, Block(o, g), key) == None) ==>
              BlocksRow(env, BlocksWith(o, gs), key) == None
    ensures forall g :: g in gs && BlockRow(env, Block(o, g), key).Some? ==>
              BlocksRow(env, BlocksWith(o, gs), key) == BlockRow(env, Block(o, g), key)
  {
    hide BlockRow, Apart;
    var bs := BlocksWith(o, gs);
    if forall g :: g in gs ==> BlockRow(env, Block(o, g), key) == None { NoBlock(env, bs, key); }
    forall g | g in gs && BlockRow(env, Block(o, g), key).Some?
      ensures BlocksRow(env, bs, key) == BlockRow(env, Block(o, g), key)
    {
      var k :| 0 <= k < |gs| && gs[k] == g;
      forall j | 0 <= j < |bs| && j != k ensures BlockRow(env, bs[j], key) == None {
        TouchOnce(env, bs[k], bs[j], key);
      }
      OnlyBlock(env, bs, k, key);
    }
  }

  // ---------- totals ----------

  function Mapped(h: Host, spans: seq<OtelSpan>): (r: seq<Span>)
    ensures |r| == |spans| && forall k :: 0 <= k < |spans| ==> r[k] == MapSpan(h, spans[k])
  {
    seq(|spans|, k requires 0 <= k < |spans| => MapSpan(h, spans[k]))
  }

  function TokensIn(s: Span): int { if s.tokensIn.Some? then s.tokensIn.value else 0 }

  function TokensOut(s: Span): int { if s.tokensOut.Some? then s.tokensOut.value else 0 }

  function Cost(s: Span): real { if s.cost.Some? then s.cost.value else 0.0 }

  /** t is the earliest start among the spans, if any has one. */
  ghost predicate EarliestStart(t: Option<Time>, xs: seq<Span>) {
    && (forall s :: s in xs && s.start.Some? ==> t.Some? && t.value <= s.start.value)
    && (t.Some? ==> exists s :: s in xs && s.start == t)
  }

  ghost predicate LatestEnd(t: Option<Time>, xs: seq<Span>) {
    && (forall s :: s in xs && s.end.Some? ==> t.Some? && s.end.value <= t.value)
    && (t.Some? ==> exists s :: s in xs && s.end == t)
  }

  function PositiveInt(n: int): Option<int> { if n > 0 then Some(n) else None }

  function PositiveReal(r: real): Option<real> { if r > 0.0 then Some(r) else None }

  /** The trace row agrees with a recomputation from the spans xs. */
  ghost predicate AgreesWith(row: Trace, xs: seq<Span>) {
    && row.tokensIn == PositiveInt(Sums.Sum(xs, TokensIn))
    && row.tokensOut == PositiveInt(Sums.Sum(xs, TokensOut))
    && row.cost == PositiveReal(Sums.SumReal(xs, Cost))
    && row.status == (if exists s :: s in xs && s.status == "error" then "failed" else "completed")
    && EarliestStart(Some(row.start), xs)
    && LatestEnd(row.end, xs)
  }

  lemma {:induction false} SumSnoc(xs: seq<Span>, s: Span)
    ensures Sums.Sum(xs + [s], TokensIn) == Sums.Sum(xs, TokensIn) + TokensIn(s)
    ensures Sums.Sum(xs + [s], TokensOut) == Sums.Sum(xs, TokensOut) + TokensOut(s)
    ensures Sums.SumReal(xs + [s], Cost) == Sums.SumReal(xs, Cost) + Cost(s)
  {
    if |xs| > 0 {
      SumSnoc(xs[1..], s);
      assert (xs + [s])[1..] == xs[1..] + [s];
    } else {
      assert (xs + [s])[1..] == [];
    }
  }

  lemma {:induction false} TotalsSums(h: Host, spans: seq<OtelSpan>, n: nat)
    requires n <= |spans|
    ensures var t, xs := TotalsOf(h, spans, n), Mapped(h, spans[..n]);
            && t.tokensIn == Sums.Sum(xs, TokensIn) && t.tokensOut == Sums.Sum(xs, TokensOut)
            && t.cost == Sums.SumReal(xs, Cost)
  {
    hide MapSpan;
    if n > 0 {
      TotalsSums(h, spans, n - 1);
      SumSnoc(Mapped(h, spans[..n - 1]), MapSpan(h, spans[n - 1]));
      assert Mapped(h, spans[..n]) == Mapped(h, spans[..n - 1]) + [MapSpan(h, spans[n - 1])];
    }
  }

  lemma MapTimes(h: Host, sp: OtelSpan)
    ensures MapSpan(h, sp).start == NonZero(sp.start) && MapSpan(h, sp).end == NonZero(sp.end)
  {}

  lemma {:induction false} TotalsExtremes(h: Host, spans: seq<OtelSpan>, n: nat)
    requires n <= |spans|
    ensures var t, xs := TotalsOf(h, spans, n), Mapped(h, spans[..n]);
            && (t.anyError <==> exists s :: s in xs && s.status == "error")
            && EarliestStart(t.start, xs) && LatestEnd(NonZero(t.end), xs)
  {
    hide MapSpan;
    if n > 0 {
      TotalsExtremes(h, spans, n - 1);
      var m, old_, xs := MapSpan(h, spans[n - 1]), Mapped(h, spans[..n - 1]), Mapped(h, spans[..n]);
      MapTimes(h, spans[n - 1]);
      assert xs == old_ + [m];
      assert forall s :: s in xs <==> s in old_ || s == m;
      ExtremesStep(TotalsOf(h, spans, n - 1), TotalsOf(h, spans, n), old_, m, h, spans[n - 1]);
    }
  }

  lemma ExtremesStep(t: Totals, u: Totals, xs: seq<Span>, m: Span, h: Host, sp: OtelSpan)
    requires EarliestStart(t.start, xs) && LatestEnd(NonZero(t.end), xs)
    requires m == MapSpan(h, sp) && u == AddTotals(t, h, sp)
    requires m.start == NonZero(sp.start) && m.end == NonZero(sp.end)
    ensures EarliestStart(u.start, xs + [m]) && LatestEnd(NonZero(u.end), xs + [m])
  {
    hide MapSpan;
    assert forall s :: s in xs + [m] <==> s in xs || s == m;
    assert m in xs + [m];
  }

  lemma GroupRowAgrees(env: Env, o: Origin, g: Bucket)
    requires |g.spans| > 0 && forall sp :: sp in g.spans ==> sp.start != 0
    ensures AgreesWith(TraceRow(env, o, g), Mapped(env.host, g.spans))
  {
    hide MapSpan, TotalsOf;
    assert g.spans[..|g.spans|] == g.spans;
    TotalsSums(env.host, g.spans, |g.spans|);
    TotalsExtremes(env.host, g.spans, |g.spans|);
    MapTimes(env.host, g.spans[0]);
    assert Mapped(env.host, g.spans)[0] in Mapped(env.host, g.spans);
  }

  /** A recomputation does not depend on the order of the spans. */
  lemma AgreesPermuted(row: Trace, xs: seq<Span>, ys: seq<Span>)
    requires AgreesWith(row, xs) && multiset(xs) == multiset(ys)
    ensures AgreesWith(row, ys)
  {
    Sums.SumPermuted(xs, ys, TokensIn);
    Sums.SumPermuted(xs, ys, TokensOut);
    Sums.SumRealPermuted(xs, ys, Cost);
    forall s ensures s in xs <==> s in ys {
      assert s in xs <==> s in multiset(xs);
      assert s in ys <==> s in multiset(ys);
    }
  }

  // ---------- the blocks of a whole request ----------

  function BlocksOf(req: Request, ps: seq<Project>, next: Ulid): seq<Block> {
    if |req| == 0 then []
    else
      var name, gs := ProjectName(req[0].attrs), Buckets(req[0]);
      match ResolveProject(ps, name)
      case Some(id) => BlocksWith(OriginOf(req[0], id), gs) + BlocksOf(req[1..], ps, NextAfterGroups(gs, next))
      case None =>
        BlocksWith(OriginOf(req[0], next), gs)
        + BlocksOf(req[1..], ps + [Project(next, name)], NextAfterGroups(gs, next + 1))
  }

  lemma {:induction false} BlocksRowJoin(env: Env, a: seq<Block>, b: seq<Block>, key: Key)
    ensures BlocksRow(env, a + b, key) == Later(BlocksRow(env, a, key), BlocksRow(env, b, key))
  {
    hide BlockRow;
    if |a| == 0 {
      assert a + b == b;
    } else {
      assert (a + b)[1..] == a[1..] + b;
      BlocksRowJoin(env, a[1..], b, key);
    }
  }

  lemma {:induction false} RequestLast(env: Env, req: Request, ps: seq<Project>, next: Ulid, key: Key)
    ensures LastWrite(RequestWrites(env, req, ps, next), key) == BlocksRow(env, BlocksOf(req, ps, next), key)
    decreases |req|
  {
    hide GroupsWrites, Buckets, OriginOf, ProjectName, ResolveProject, BlockRow, KeyOf;
    if |req| > 0 {
      var name, gs := ProjectName(req[0].attrs), Buckets(req[0]);
      match ResolveProject(ps, name)
      case Some(id) =>
        var o, id2 := OriginOf(req[0], id), NextAfterGroups(gs, next);
        GroupsLast(env, o, gs, next, key);
        RequestLast(env, req[1..], ps, id2, key);
        LastJoin(GroupsWrites(env, o, gs, next), RequestWrites(env, req[1..], ps, id2), key);
        BlocksRowJoin(env, BlocksWith(o, gs), BlocksOf(req[1..], ps, id2), key);
      case None =>
        var p, o, id2 := Project(next, name), OriginOf(req[0], next), NextAfterGroups(gs, next + 1);
        GroupsLast(env, o, gs, next + 1, key);
        RequestLast(env, req[1..], ps + [p], id2, key);
        ProjectKeyless(p, key);
        LastJoin([PutProject(p)], GroupsWrites(env, o, gs, next + 1), key);
        LastJoin([PutProject(p)] + GroupsWrites(env, o, gs, next + 1), RequestWrites(env, req[1..], ps + [p], id2), key);
        BlocksRowJoin(env, BlocksWith(o, gs), BlocksOf(req[1..], ps + [p], id2), key);
    }
  }

  lemma ProjectKeyless(p: Project, key: Key)
    ensures LastWrite([PutProject(p)], key) == None
  {
    OneLast(PutProject(p), key);
  }

  ghost predicate DistinctSpanIds(spans: seq<OtelSpan>) {
    forall i, j :: 0 <= i < j < |spans| ==> spans[i].id != spans[j].id
  }

  lemma {:induction false} DistinctSpanRow(env: Env, spans: seq<OtelSpan>, k: nat)
    requires DistinctSpanIds(spans) && k < |spans|
    ensures SpansRow(env, spans, KSpan(spans[k].id)) == Some(PutSpan(MapSpan(env.host, spans[k])))
  {
    hide MapSpan;
    if k > 0 {
      DistinctSpanRow(env, spans[1..], k - 1);
    } else {
      AbsentSpanRow(env, spans[1..], KSpan(spans[0].id));
    }
  }

  lemma {:induction false} AbsentSpanRow(env: Env, spans: seq<OtelSpan>, key: Key)
    requires forall sp :: sp in spans ==> KeySpan(key) != Some(sp.id)
    ensures SpansRow(env, spans, key) == None
  {
    hide MapSpan;
    if |spans| > 0 {
      assert spans[0] in spans;
      AbsentSpanRow(env, spans[1..], key);
    }
  }

  /** The request has one group for this trace, block k, and no span id of it
      occurs in another group. */
  ghost predicate OwnBlock(bs: seq<Block>, k: nat) {
    && k < |bs| && DistinctSpanIds(bs[k].g.spans)
    && (forall j :: 0 <= j < |bs| && j != k ==> Apart(bs[j].g, bs[k].g))
  }

  /** Groups are of one trace each and never empty. */
  ghost predicate GoodGroup(g: Bucket) { |g.spans| > 0 && Homogeneous(g) }

  lemma {:induction false} AddSpanGood(gs: seq<Bucket>, sp: OtelSpan)
    requires forall g :: g in gs ==> GoodGroup(g)
    ensures forall g :: g in AddSpan(gs, sp) ==> GoodGroup(g)
  {
    if |gs| > 0 {
      assert gs[0] in gs;
      if gs[0].trace != sp.trace { AddSpanGood(gs[1..], sp); }
    }
  }

  lemma {:induction false} GroupedGood(spans: seq<OtelSpan>, n: nat)
    requires n <= |spans|
    ensures forall g :: g in Grouped(spans, n) ==> GoodGroup(g)
  {
    hide GoodGroup;
    if n > 0 {
      GroupedGood(spans, n - 1);
      AddSpanGood(Grouped(spans, n - 1), spans[n - 1]);
    }
  }

  lemma {:induction false} BlocksGood(req: Request, ps: seq<Project>, next: Ulid)
    ensures forall b :: b in BlocksOf(req, ps, next) ==> GoodGroup(b.g)
    decreases |req|
  {
    hide OriginOf, ProjectName, ResolveProject, GoodGroup, Grouped;
    if |req| > 0 {
      var gs := Buckets(req[0]);
      GroupedGood(Flatten(req[0].scopes), |Flatten(req[0].scopes)|);
      match ResolveProject(ps, ProjectName(req[0].attrs))
      case Some(_) => BlocksGood(req[1..], ps, NextAfterGroups(gs, next));
      case None => BlocksGood(req[1..], ps + [Project(next, ProjectName(req[0].attrs))], NextAfterGroups(gs, next + 1));
    }
  }

  lemma {:induction false} LastWriteIn(ws: seq<Write>, key: Key)
    requires LastWrite(ws, key).Some?
    ensures LastWrite(ws, key).value in ws
  {
    if LastWrite(ws[1..], key).Some? { LastWriteIn(ws[1..], key); }
  }

  lemma OwnRows(env: Env, bs: seq<Block>, k: nat)
    requires OwnBlock(bs, k)
    ensures BlocksRow(env, bs, KTrace(bs[k].g.trace)) == Some(PutTrace(TraceRow(env, bs[k].o, bs[k].g)))
    ensures forall sp :: sp in bs[k].g.spans ==> BlocksRow(env, bs, KSpan(sp.id)) == Some(PutSpan(MapSpan(env.host, sp)))
  {
    hide TraceRow, MapSpan, BlocksRow;
    var b := bs[k];
    var key := KTrace(b.g.trace);
    AbsentSpanRow(env, b.g.spans, key);
    forall j | 0 <= j < |bs| && j != k ensures BlockRow(env, bs[j], key) == None {
      AbsentSpanRow(env, bs[j].g.spans, key);
    }
    OnlyBlock(env, bs, k, key);
    forall sp | sp in b.g.spans ensures BlocksRow(env, bs, KSpan(sp.id)) == Some(PutSpan(MapSpan(env.host, sp))) {
      var i :| 0 <= i < |b.g.spans| && b.g.spans[i] == sp;
      DistinctSpanRow(env, b.g.spans, i);
      forall j | 0 <= j < |bs| && j != k ensures BlockRow(env, bs[j], KSpan(sp.id)) == None {
        AbsentSpanRow(env, bs[j].g.spans, KSpan(sp.id));
      }
      OnlyBlock(env, bs, k, KSpan(sp.id));
    }
  }

  /** A span row the request leaves comes from a span of some block. */
  lemma {:induction false} SpanRowSource(env: Env, bs: seq<Block>, id: SpanId)
    requires BlocksRow(env, bs, KSpan(id)).Some?
    ensures exists j, sp :: 0 <= j < |bs| && sp in bs[j].g.spans && sp.id == id
              && BlocksRow(env, bs, KSpan(id)) == Some(PutSpan(MapSpan(env.host, sp)))
  {
    hide MapSpan, TraceRow;
    if BlocksRow(env, bs[1..], KSpan(id)).Some? {
      SpanRowSource(env, bs[1..], id);
      var j, sp :| 0 <= j < |bs[1..]| && sp in bs[1..][j].g.spans && sp.id == id
        && BlocksRow(env, bs[1..], KSpan(id)) == Some(PutSpan(MapSpan(env.host, sp)));
      assert sp in bs[j + 1].g.spans;
    } else {
      SpansTouch(env, bs[0].g.spans, KSpan(id));
      var sp :| sp in bs[0].g.spans && sp.id == id
                && SpanRow(env, sp, KSpan(id)) == SpansRow(env, bs[0].g.spans, KSpan(id));
      assert sp in bs[0].g.spans && sp.id == id;
    }
  }

  lemma HomogeneousIn(g: Bucket, sp: OtelSpan)
    requires Homogeneous(g) && sp in g.spans
    ensures sp.trace == g.trace
  {
    var i :| 0 <= i < |g.spans| && g.spans[i] == sp;
  }

  /** xs lists the stored spans of the trace, each once. */
  ghost predicate ListsSpans(db: Tables, t: TraceId, xs: seq<Span>) {
    && DistinctIds(xs)
    && (forall s :: s in xs <==> s.id in db.spans && db.spans[s.id] == s && s.trace == t)
  }

  ghost predicate NewTrace(db: Tables, t: TraceId) {
    forall id :: id in db.spans ==> db.spans[id].trace != t
  }

  lemma MappedDistinct(h: Host, spans: seq<OtelSpan>)
    requires DistinctSpanIds(spans)
    ensures DistinctIds(Mapped(h, spans))
  {
    forall i, j | 0 <= i < j < |spans| ensures Mapped(h, spans)[i].id != Mapped(h, spans)[j].id {
      IngestRun.MapSpanId(h, spans[i]);
      IngestRun.MapSpanId(h, spans[j]);
    }
  }

  /** After the batch, the stored spans of the block's trace are its own. */
  lemma StoredAreMapped(db: Tables, env: Env, ws: seq<Write>, bs: seq<Block>, k: nat)
    requires k < |bs| && OwnBlock(bs, k) && NewTrace(db, bs[k].g.trace) && forall b :: b in bs ==> GoodGroup(b.g)
    requires forall key :: LastWrite(ws, key) == BlocksRow(env, bs, key)
    ensures ListsSpans(ApplyAll(db, ws), bs[k].g.trace, Mapped(env.host, bs[k].g.spans))
  {
    hide MapSpan, TraceRow, LastWrite, BlocksRow, BlockRow, ApplyAll, OwnBlock;
    var after, g := ApplyAll(db, ws), bs[k].g;
    var xs := Mapped(env.host, g.spans);
    assert DistinctSpanIds(g.spans) by { OwnParts(bs, k); }
    MappedDistinct(env.host, g.spans);
    OwnRows(env, bs, k);
    forall s | s in xs ensures s.id in after.spans && after.spans[s.id] == s && s.trace == g.trace {
      var i :| 0 <= i < |xs| && xs[i] == s;
      var sp := g.spans[i];
      IngestRun.MapSpanId(env.host, sp);
      assert sp in g.spans;
      OwnParts(bs, k);
      HomogeneousIn(g, sp);
      RowAfter(db, ws, KSpan(sp.id));
      assert Row(after, KSpan(sp.id)) == Some(PutSpan(s));
    }
    forall s: Span | s.id in after.spans && after.spans[s.id] == s && s.trace == g.trace ensures s in xs {
      RowAfter(db, ws, KSpan(s.id));
      assert Row(after, KSpan(s.id)) == Some(PutSpan(s));
      assert BlocksRow(env, bs, KSpan(s.id)).Some?;
      SpanRowSource(env, bs, s.id);
      var j, sp :| 0 <= j < |bs| && sp in bs[j].g.spans && sp.id == s.id
        && BlocksRow(env, bs, KSpan(s.id)) == Some(PutSpan(MapSpan(env.host, sp)));
      IngestRun.MapSpanId(env.host, sp);
      OwnParts(bs, k);
      HomogeneousIn(bs[j].g, sp);
      assert j == k;
      var i :| 0 <= i < |g.spans| && g.spans[i] == sp;
      assert xs[i] == s;
    }
  }

  lemma OwnParts(bs: seq<Block>, k: nat)
    requires OwnBlock(bs, k) && forall b :: b in bs ==> GoodGroup(b.g)
    ensures DistinctSpanIds(bs[k].g.spans) && Homogeneous(bs[k].g)
    ensures forall j :: 0 <= j < |bs| ==> Homogeneous(bs[j].g) && (j != k ==> bs[j].g.trace != bs[k].g.trace)
  {
    forall j | 0 <= j < |bs| ensures GoodGroup(bs[j].g) {
      assert bs[j] in bs;
    }
  }

  /** An accepted batch holds no span without a start. */
  lemma AcceptedStarts(env: Env, ws: seq<Write>, bs: seq<Block>, k: nat, sp: OtelSpan)
    requires AllAccepted(ws) && OwnBlock(bs, k) && sp in bs[k].g.spans
    requires forall key :: LastWrite(ws, key) == BlocksRow(env, bs, key)
    ensures sp.start != 0
  {
    hide MapSpan, TraceRow, LastWrite, BlocksRow, OwnBlock;
    OwnRows(env, bs, k);
    assert LastWrite(ws, KSpan(sp.id)) == Some(PutSpan(MapSpan(env.host, sp)));
    LastWriteIn(ws, KSpan(sp.id));
    MapTimes(env.host, sp);
  }

  lemma ListingsPermute(db: Tables, t: TraceId, xs: seq<Span>, ys: seq<Span>)
    requires ListsSpans(db, t, xs) && ListsSpans(db, t, ys)
    ensures multiset(xs) == multiset(ys)
  {
    Forest.SameMembersSameMultiset(xs, ys);
  }

  /** For a new trace with one group in the request and distinct span ids, the
      stored trace row agrees with a recomputation from its stored spans, in
      whatever order they are listed. */
  lemma TraceRowMatchesSpans(db: Tables, env: Env, req: Request, next: Ulid, k: nat, xs: seq<Span>)
    requires Run(db, RequestWrites(env, req, db.projects, next)).ok
    requires k < |BlocksOf(req, db.projects, next)| && OwnBlock(BlocksOf(req, db.projects, next), k)
    requires var g := BlocksOf(req, db.projects, next)[k].g;
             && NewTrace(db, g.trace)
             && ListsSpans(Run(db, RequestWrites(env, req, db.projects, next)).db, g.trace, xs)
    ensures var t := BlocksOf(req, db.projects, next)[k].g.trace;
            var after := Run(db, RequestWrites(env, req, db.projects, next)).db;
            t in after.traces && AgreesWith(after.traces[t], xs)
  {
    hide RequestWrites, BlocksOf, BlocksRow, LastWrite, AgreesWith, TraceRow, OwnBlock, NewTrace, ListsSpans;
    var ws, bs := RequestWrites(env, req, db.projects, next), BlocksOf(req, db.projects, next);
    var b := bs[k];
    HitCounts.RunIsApplyAll(db, ws);
    forall key ensures LastWrite(ws, key) == BlocksRow(env, bs, key) {
      RequestLast(env, req, db.projects, next, key);
    }
    BlocksGood(req, db.projects, next);
    StoredAreMapped(db, env, ws, bs, k);
    RunOk(db, ws);
    assert k < |bs| && b in bs;
    forall sp | sp in b.g.spans ensures sp.start != 0 {
      AcceptedStarts(env, ws, bs, k, sp);
    }
    ListingsPermute(ApplyAll(db, ws), b.g.trace, Mapped(env.host, b.g.spans), xs);
    GroupRowAgrees(env, b.o, b.g);
    AgreesPermuted(TraceRow(env, b.o, b.g), Mapped(env.host, b.g.spans), xs);
    OwnRows(env, bs, k);
    RowAfter(db, ws, KTrace(b.g.trace));
    assert Row(ApplyAll(db, ws), KTrace(b.g.trace)) == Some(PutTrace(TraceRow(env, b.o, b.g)));
  }
}
