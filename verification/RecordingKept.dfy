/**
 Ingestion and replay meet: once the spans of a run have been delivered, in one
 request or in many, in whatever order, cut short or repeated, and whatever else
 came with them, the store holds the recording, and it goes on holding it while
 deliveries of other traces come in. The last lemma follows a run all the way round.
 */
module RecordingKept {
  import opened Spans
  import opened Closings
  import opened Db
  import opened Deliveries
  import opened Ingest
  import opened IngestLaws
  import opened Replay
  import opened Recording
  import opened ReplayLaws
  import opened TraceTotals
  import Diff
  import IngestRun

  // ---------- settled rows ----------

  lemma {:induction false} LastWriteKey(ws: seq<Write>, key: Key)
    ensures LastWrite(ws, key).Some? ==> LastWrite(ws, key).value in ws && KeyOf(LastWrite(ws, key).value) == Some(key)
    ensures (exists w :: w in ws && KeyOf(w) == Some(key)) ==> LastWrite(ws, key).Some?
  {
    hide KeyOf;
    if |ws| > 0 {
      LastWriteKey(ws[1..], key);
      forall w | w in ws && KeyOf(w) == Some(key) ensures LastWrite(ws, key).Some? {
        if w != ws[0] { assert w in ws[1..]; }
      }
    }
  }

  /** If all writes to a row say the same, and one of them is made or the row
      said so before, then it says so afterwards. */
  lemma RowSettles(db: Tables, ws: seq<Write>, key: Key, want: Option<Write>)
    requires forall w :: w in ws && KeyOf(w) == Some(key) ==> want == Some(w)
    requires Row(db, key) == want || (want.Some? && want.value in ws && KeyOf(want.value) == Some(key))
    ensures Row(ApplyAll(db, ws), key) == want
  {
    hide ApplyAll, LastWrite, KeyOf, Row;
    RowAfter(db, ws, key);
    LastWriteKey(ws, key);
  }

  /** Cache entries are never removed. */
  lemma {:induction false} CacheStays(db: Tables, ws: seq<Write>, hash: string)
    ensures hash in db.cache || (exists w :: w in ws && w.PutCache? && w.row.hash == hash) ==>
              hash in ApplyAll(db, ws).cache
    decreases |ws|
  {
    if |ws| > 0 {
      CacheStays(Apply(db, ws[0]), ws[1..], hash);
      CacheStep(db, ws[0], hash);
      hide Apply;
      forall w | w in ws && w.PutCache? && w.row.hash == hash ensures hash in ApplyAll(db, ws).cache {
        if w != ws[0] { assert w in ws[1..]; }
      }
    }
  }

  /** If all writes under a hash carry the same response, so does the entry. */
  lemma {:induction false} CacheSettles(db: Tables, ws: seq<Write>, hash: string, r: string)
    requires forall w :: w in ws && w.PutCache? && w.row.hash == hash ==> w.row.response == r
    requires hash in db.cache ==> db.cache[hash].response == r
    ensures hash in ApplyAll(db, ws).cache ==> ApplyAll(db, ws).cache[hash].response == r
    decreases |ws|
  {
    if |ws| > 0 {
      assert ws[0] in ws;
      CacheStep(db, ws[0], hash);
      hide Apply;
      CacheSettles(Apply(db, ws[0]), ws[1..], hash, r);
    }
  }

  lemma CacheStep(db: Tables, w: Write, hash: string)
    ensures w.PutCache? && w.row.hash == hash ==> hash in Apply(db, w).cache && Apply(db, w).cache[hash] == w.row
    ensures !(w.PutCache? && w.row.hash == hash) ==>
              (hash in Apply(db, w).cache <==> hash in db.cache)
              && (hash in db.cache ==> Apply(db, w).cache[hash] == db.cache[hash])
  {}

  // ---------- a recording comes in ----------

  predicate OwnId(s: Session, id: SpanId) {
    exists k :: 0 <= k < |s.stamps| && s.stamps[k].id == id
  }

  lemma IsOwn(s: Session, k: nat)
    requires k < |s.stamps|
    ensures OwnId(s, s.stamps[k].id)
  {}

  lemma EmittedId(s: Session, es: seq<Event>, i: nat)
    requires |s.stamps| == |es| + 1 && i <= |es|
    ensures Emitted(s, es)[i].id == s.stamps[i].id && Emitted(s, es)[i].trace == s.trace
  {
    if i > 0 { assert Emitted(s, es)[i] == Emit(s.trace, es[i - 1], s.stamps[i]); }
  }

  /** The span is of this trace or has one of its span ids. */
  predicate Claims(s: Session, sp: OtelSpan) { sp.trace == s.trace || OwnId(s, sp.id) }

  /** Nothing in the deliveries but the spans of the run claims to be of it. */
  ghost predicate Faithful(h: Host, bs: seq<Batch>, s: Session, es: seq<Event>) {
    && |s.stamps| == |es| + 1
    && forall b :: b in bs ==> b.env.host == h && AllOwn(SpansIn(b), s, es)
  }

  ghost predicate AllOwn(sps: seq<OtelSpan>, s: Session, es: seq<Event>)
    requires |s.stamps| == |es| + 1
  {
    forall sp :: sp in sps && Claims(s, sp) ==> sp in Emitted(s, es)
  }

  /** Some delivery that is not cut short brings the span. */
  ghost predicate Brought(bs: seq<Batch>, sp: OtelSpan) {
    exists b :: b in bs && Whole(b) && sp in SpansIn(b)
  }

  /** Every span of the run arrives. */
  ghost predicate Arrives(bs: seq<Batch>, s: Session, es: seq<Event>)
    requires |s.stamps| == |es| + 1
  {
    forall sp :: sp in Emitted(s, es) ==> Brought(bs, sp)
  }

  function ToolRow(sp: OtelSpan): Option<Write> {
    match ToolOf(sp) case None => None case Some(c) => Some(PutTool(c))
  }

  lemma ToolRowKept(db: Tables, sp: OtelSpan)
    ensures ToolKept(db, sp) <==> Row(db, KTool(sp.id)) == ToolRow(sp)
  {
    assert ToolOf(sp).Some? ==> ToolOf(sp).value.span == sp.id;
    hide ToolOf;
  }

  /** What a delivery writes to the rows of a span of the run is that span's. */
  lemma OwnWrites(db: Tables, h: Host, bs: seq<Batch>, s: Session, es: seq<Event>, k: nat, w: Write)
    requires Stamped(s, es) && Faithful(h, bs, s, es) && k <= |es| && w in HistoryWrites(db, bs)
    ensures KeyOf(w) == Some(KSpan(s.stamps[k].id)) ==> w == PutSpan(Rows(h, s, es)[k])
    ensures KeyOf(w) == Some(KTool(s.stamps[k].id)) ==> Some(w) == ToolRow(Emitted(s, es)[k])
    ensures w.PutSpan? && w.span.trace == s.trace ==> w.span in Rows(h, s, es)
  {
    hide HistoryWrites, Emitted, MapSpan, ToolOf, CacheOf;
    IsOwn(s, k);
    if w.PutSpan? || w.PutTool? {
      var b, sp := HistoryGiver(db, bs, w);
      GivesOwnId(b.env, sp, w);
      hide OwnId;
      if Claims(s, sp) {
        assert AllOwn(SpansIn(b), s, es);
        var i :| 0 <= i <= |es| && Emitted(s, es)[i] == sp;
        EmittedId(s, es, i);
        assert Rows(h, s, es)[i] == MapSpan(h, sp);
        OwnGiven(b.env, s, sp, i, k, w);
      }
    }
  }

  lemma OwnGiven(env: Env, s: Session, sp: OtelSpan, i: nat, k: nat, w: Write)
    requires i < |s.stamps| && k < |s.stamps| && (i != k ==> s.stamps[i].id != s.stamps[k].id)
    requires Gives(env, sp, w) && sp.id == s.stamps[i].id
    ensures w.PutSpan? ==> w == PutSpan(MapSpan(env.host, sp))
    ensures KeyOf(w) == Some(KSpan(s.stamps[k].id)) || KeyOf(w) == Some(KTool(s.stamps[k].id)) ==> i == k
    ensures w.PutTool? ==> Some(w) == ToolRow(sp)
  {
    GivesOwnId(env, sp, w);
    hide MapSpan, ToolOf, CacheOf;
  }

  /** The rows and the cached response of a span of the run are stored. */
  ghost predicate Stored(db: Tables, h: Host, s: Session, es: seq<Event>, k: nat)
    requires |s.stamps| == |es| + 1 && k <= |es|
  {
    && Row(db, KSpan(s.stamps[k].id)) == Some(PutSpan(Rows(h, s, es)[k]))
    && ToolKept(db, Emitted(s, es)[k])
    && (k > 0 && Caches(es[k - 1]) ==> es[k - 1].action.hash in db.cache)
  }

  lemma RowGiven(h: Host, env: Env, sp: OtelSpan)
    requires env.host == h
    ensures Gives(env, sp, PutSpan(MapSpan(h, sp))) && KeyOf(PutSpan(MapSpan(h, sp))) == Some(KSpan(sp.id))
    ensures ToolRow(sp).Some? ==>
              Gives(env, sp, ToolRow(sp).value) && KeyOf(ToolRow(sp).value) == Some(KTool(sp.id))
              && IsSpanData(ToolRow(sp).value)
  {
    IngestRun.MapSpanId(h, sp);
    assert ToolOf(sp).Some? ==> ToolOf(sp).value.span == sp.id;
    hide MapSpan, ToolOf, CacheOf;
  }

  /** The writes of a span that is brought. */
  lemma RowsBrought(db: Tables, h: Host, bs: seq<Batch>, s: Session, es: seq<Event>, k: nat)
    requires Stamped(s, es) && Faithful(h, bs, s, es) && k <= |es| && Brought(bs, Emitted(s, es)[k])
    ensures var ws, id, tool := HistoryWrites(db, bs), s.stamps[k].id, ToolRow(Emitted(s, es)[k]);
            && PutSpan(Rows(h, s, es)[k]) in ws && KeyOf(PutSpan(Rows(h, s, es)[k])) == Some(KSpan(id))
            && (tool.Some? ==> tool.value in ws && KeyOf(tool.value) == Some(KTool(id)))
  {
    var sp := Emitted(s, es)[k];
    EmittedId(s, es, k);
    hide HistoryWrites, MapSpan, ToolRow, Gives, Stamped, Whole, SpansIn, Emitted, AllOwn, KeyOf;
    var b :| b in bs && Whole(b) && sp in SpansIn(b);
    RowGiven(h, b.env, sp);
    HistoryGives(db, bs, b, sp, PutSpan(MapSpan(h, sp)));
    if ToolRow(sp).Some? { HistoryGives(db, bs, b, sp, ToolRow(sp).value); }
  }

  /** The response of a model call that is brought. */
  lemma ReplyBrought(db: Tables, bs: seq<Batch>, s: Session, es: seq<Event>, k: nat)
    requires |s.stamps| == |es| + 1 && k < |es| && Caches(es[k])
    requires Brought(bs, Emitted(s, es)[k + 1])
    ensures exists w :: w in HistoryWrites(db, bs) && w.PutCache? && w.row.hash == es[k].action.hash
  {
    hide HistoryWrites, MapSpan, ToolOf, CacheOf, Whole, SpansIn, EventAttrs, EventName;
    var sp := Emit(s.trace, es[k], s.stamps[k + 1]);
    assert sp == Emitted(s, es)[k + 1];
    var b :| b in bs && Whole(b) && sp in SpansIn(b);
    CacheOfCall(b.env, s.trace, es[k], s.stamps[k + 1]);
    HistoryGives(db, bs, b, sp, PutCache(CacheOf(b.env.host, sp, b.env.now).value));
  }

  /** What the batch caches for a model call of the run. */
  lemma CacheOfCall(env: Env, t: TraceId, e: Event, at: Stamp)
    requires e.action.Llm?
    ensures var c := CacheOf(env.host, Emit(t, e, at), env.now);
            && c.Some? == Caches(e)
            && (c.Some? ==> c.value.hash == e.action.hash && Answer(c.value.response) == e.response)
  {
    KindOf(env.host, e, t, at);
    ShownAt(e, at.close.late);
    hide MapSpan, EventName, EventAttrs;
  }

  /** All writes to the rows of a span of the run say the same. */
  lemma OneVoice(db: Tables, h: Host, bs: seq<Batch>, s: Session, es: seq<Event>, k: nat)
    requires Stamped(s, es) && Faithful(h, bs, s, es) && k <= |es|
    ensures forall w :: w in HistoryWrites(db, bs) && KeyOf(w) == Some(KSpan(s.stamps[k].id)) ==>
              w == PutSpan(Rows(h, s, es)[k])
    ensures forall w :: w in HistoryWrites(db, bs) && KeyOf(w) == Some(KTool(s.stamps[k].id)) ==>
              Some(w) == ToolRow(Emitted(s, es)[k])
  {
    hide HistoryWrites, Emitted, Rows, KeyOf, Faithful, ToolRow, OwnId;
    forall w | w in HistoryWrites(db, bs)
      ensures KeyOf(w) == Some(KSpan(s.stamps[k].id)) ==> w == PutSpan(Rows(h, s, es)[k])
      ensures KeyOf(w) == Some(KTool(s.stamps[k].id)) ==> Some(w) == ToolRow(Emitted(s, es)[k])
    {
      OwnWrites(db, h, bs, s, es, k, w);
    }
  }

  /** The row of a span settles if it was stored or is brought. */
  lemma RowSettled(db: Tables, h: Host, bs: seq<Batch>, s: Session, es: seq<Event>, k: nat)
    requires Stamped(s, es) && Faithful(h, bs, s, es) && k <= |es|
    requires var want := Some(PutSpan(Rows(h, s, es)[k]));
             Row(db, KSpan(s.stamps[k].id)) == want || Brought(bs, Emitted(s, es)[k])
    ensures Row(AfterAll(db, bs), KSpan(s.stamps[k].id)) == Some(PutSpan(Rows(h, s, es)[k]))
  {
    hide HistoryWrites, AfterAll, ApplyAll, Row, KeyOf, Faithful, Brought, OwnId, Emitted, Rows, ToolRow;
    AfterIsWrites(db, bs);
    OneVoice(db, h, bs, s, es, k);
    if Brought(bs, Emitted(s, es)[k]) { RowsBrought(db, h, bs, s, es, k); }
    RowSettles(db, HistoryWrites(db, bs), KSpan(s.stamps[k].id), Some(PutSpan(Rows(h, s, es)[k])));
  }

  /** So does its tool call, if none was stored under its id. */
  lemma ToolSettled(db: Tables, h: Host, bs: seq<Batch>, s: Session, es: seq<Event>, k: nat)
    requires Stamped(s, es) && Faithful(h, bs, s, es) && k <= |es|
    requires ToolKept(db, Emitted(s, es)[k]) || (Brought(bs, Emitted(s, es)[k]) && s.stamps[k].id !in db.tools)
    ensures ToolKept(AfterAll(db, bs), Emitted(s, es)[k])
  {
    var sp, id := Emitted(s, es)[k], s.stamps[k].id;
    assert id !in db.tools ==> Row(db, KTool(id)) == None;
    hide HistoryWrites, AfterAll, ApplyAll, Row, KeyOf, Faithful, Brought, OwnId, Emitted, Rows, ToolRow, ToolKept;
    EmittedId(s, es, k);
    AfterIsWrites(db, bs);
    OneVoice(db, h, bs, s, es, k);
    if Brought(bs, sp) { RowsBrought(db, h, bs, s, es, k); }
    ToolRowKept(db, sp);
    ToolRowKept(AfterAll(db, bs), sp);
    RowSettles(db, HistoryWrites(db, bs), KTool(id), ToolRow(sp));
  }

  /** A span is stored if it was before, or if it is brought and no tool call
      was stored under its id. */
  lemma SpanSettles(db: Tables, h: Host, bs: seq<Batch>, s: Session, es: seq<Event>, k: nat)
    requires Stamped(s, es) && Faithful(h, bs, s, es) && k <= |es|
    requires Stored(db, h, s, es, k) || (Brought(bs, Emitted(s, es)[k]) && s.stamps[k].id !in db.tools)
    ensures Stored(AfterAll(db, bs), h, s, es, k)
  {
    hide HistoryWrites, AfterAll, Row, Faithful, Brought, Emitted, Rows, ToolKept;
    RowSettled(db, h, bs, s, es, k);
    ToolSettled(db, h, bs, s, es, k);
    if k > 0 && Caches(es[k - 1]) {
      if !Stored(db, h, s, es, k) { ReplyBrought(db, bs, s, es, k - 1); }
      AfterIsWrites(db, bs);
      hide ApplyAll;
      CacheStays(db, HistoryWrites(db, bs), es[k - 1].action.hash);
    }
  }

  /** The stored spans of the trace are rows of the run. */
  ghost predicate OnlyRows(db: Tables, h: Host, s: Session, es: seq<Event>)
    requires |s.stamps| == |es| + 1
  {
    forall r: Span :: r.id in db.spans && db.spans[r.id] == r && r.trace == s.trace ==> r in Rows(h, s, es)
  }

  lemma OnlyRowsStays(db: Tables, h: Host, bs: seq<Batch>, s: Session, es: seq<Event>)
    requires Stamped(s, es) && Faithful(h, bs, s, es) && OnlyRows(db, h, s, es)
    ensures OnlyRows(AfterAll(db, bs), h, s, es)
  {
    assert |s.stamps| == |es| + 1;
    hide HistoryWrites, Emitted, MapSpan, AfterAll, ApplyAll, LastWrite, Stamped, Faithful, Rows;
    var ws := HistoryWrites(db, bs);
    AfterIsWrites(db, bs);
    var after := ApplyAll(db, ws);
    forall r: Span | r.id in after.spans && after.spans[r.id] == r && r.trace == s.trace ensures r in Rows(h, s, es) {
      RowAfter(db, ws, KSpan(r.id));
      LastWriteKey(ws, KSpan(r.id));
      if LastWrite(ws, KSpan(r.id)).Some? { OwnWrites(db, h, bs, s, es, 0, PutSpan(r)); }
    }
  }

  lemma StoredListing(db: Tables, h: Host, s: Session, es: seq<Event>)
    requires WellStamped(s, es) && OnlyRows(db, h, s, es)
    requires forall k :: 0 <= k <= |es| ==> Stored(db, h, s, es, k)
    ensures StoreOrder(db.spans, s.trace, Rows(h, s, es))
  {
    StampCount(s, es);
    hide Emitted, MapSpan, ToolKept, Stamped, Ascending, Rows, Stored;
    RowsSorted(h, s, es);
    var rows := Rows(h, s, es);
    forall r | r in rows ensures r.id in db.spans && db.spans[r.id] == r && r.trace == s.trace {
      var k :| 0 <= k < |rows| && rows[k] == r;
      RowTimes(h, s, es, k);
      StoredParts(db, h, s, es, k);
    }
  }

  lemma StoredParts(db: Tables, h: Host, s: Session, es: seq<Event>, k: nat)
    requires |s.stamps| == |es| + 1 && k <= |es| && Stored(db, h, s, es, k)
    ensures s.stamps[k].id in db.spans && db.spans[s.stamps[k].id] == Rows(h, s, es)[k]
    ensures ToolKept(db, Emitted(s, es)[k])
    ensures k > 0 && Caches(es[k - 1]) ==> es[k - 1].action.hash in db.cache
  {
    hide ToolKept, Emitted, Rows;
  }

  lemma StoredTools(db: Tables, h: Host, s: Session, es: seq<Event>)
    requires |s.stamps| == |es| + 1 && forall k :: 0 <= k <= |es| ==> Stored(db, h, s, es, k)
    ensures forall k :: 0 <= k <= |es| ==> ToolKept(db, Emitted(s, es)[k])
  {
    hide Emitted, ToolKept, Stored;
    forall k | 0 <= k <= |es| ensures ToolKept(db, Emitted(s, es)[k]) {
      StoredParts(db, h, s, es, k);
    }
  }

  lemma StoredReplies(db: Tables, h: Host, s: Session, es: seq<Event>)
    requires |s.stamps| == |es| + 1 && forall k :: 0 <= k <= |es| ==> Stored(db, h, s, es, k)
    ensures forall k :: 0 <= k < |es| && Caches(es[k]) ==> es[k].action.hash in db.cache
  {
    hide Emitted, ToolKept, Stored;
    forall k | 0 <= k < |es| && Caches(es[k]) ensures es[k].action.hash in db.cache {
      StoredParts(db, h, s, es, k + 1);
    }
  }

  lemma StoredHolds(db: Tables, h: Host, s: Session, es: seq<Event>)
    requires WellStamped(s, es) && OnlyRows(db, h, s, es)
    requires forall k :: 0 <= k <= |es| ==> Stored(db, h, s, es, k)
    ensures Holds(db, h, s, es)
  {
    StampCount(s, es);
    hide Emitted, ToolKept, WellStamped, Rows, Stored, StoreOrder, Caches;
    StoredListing(db, h, s, es);
    StoredTools(db, h, s, es);
    StoredReplies(db, h, s, es);
  }

  lemma HoldsStored(db: Tables, h: Host, s: Session, es: seq<Event>)
    requires Holds(db, h, s, es)
    ensures Stamped(s, es) && OnlyRows(db, h, s, es)
    ensures forall k :: 0 <= k <= |es| ==> Stored(db, h, s, es, k)
  {
    hide Emitted, MapSpan, ToolKept, Stamped, Ascending, Rows;
    StampCount(s, es);
    forall k | 0 <= k <= |es| ensures Stored(db, h, s, es, k) {
      RowTimes(h, s, es, k);
      assert Rows(h, s, es)[k] in Rows(h, s, es);
    }
  }

  /** Delivering the spans of a run as a new trace with new span ids records it:
      in however many requests they come, in whatever order, repeated or beside
      whatever else, and also if some deliveries are cut short. */
  lemma IngestionRecords(db: Tables, h: Host, bs: seq<Batch>, s: Session, es: seq<Event>)
    requires WellStamped(s, es) && Faithful(h, bs, s, es) && Arrives(bs, s, es)
    requires NewTrace(db, s.trace) && forall id :: OwnId(s, id) ==> id !in db.tools
    ensures Holds(AfterAll(db, bs), h, s, es)
  {
    StampCount(s, es);
    hide AfterAll, Emitted, Stamped, Ascending, Faithful, Brought, Rows, Stored, Holds;
    OnlyRowsStays(db, h, bs, s, es);
    forall k | 0 <= k <= |es| ensures Stored(AfterAll(db, bs), h, s, es, k) {
      IsOwn(s, k);
      assert Emitted(s, es)[k] in Emitted(s, es);
      SpanSettles(db, h, bs, s, es, k);
    }
    StoredHolds(AfterAll(db, bs), h, s, es);
  }

  /** Deliveries in which nothing else claims to be of the run leave the recording
      as it is, whether they end well or are cut short. */
  lemma RecordingOutlives(db: Tables, h: Host, bs: seq<Batch>, s: Session, es: seq<Event>)
    requires Holds(db, h, s, es) && Faithful(h, bs, s, es)
    ensures Holds(AfterAll(db, bs), h, s, es)
  {
    HeldParts(db, h, s, es);
    hide AfterAll, Emitted, Stamped, Ascending, Faithful, Brought, Rows, Stored, Holds;
    HoldsStored(db, h, s, es);
    OnlyRowsStays(db, h, bs, s, es);
    forall k | 0 <= k <= |es| ensures Stored(AfterAll(db, bs), h, s, es, k) {
      SpanSettles(db, h, bs, s, es, k);
    }
    StoredHolds(AfterAll(db, bs), h, s, es);
  }

  // ---------- what the cache holds ----------

  /** Every response the deliveries have for the prompt is this one. */
  ghost predicate OneReply(bs: seq<Batch>, hash: string, response: string) {
    forall b, sp :: b in bs && sp in SpansIn(b) ==> Replies(b.env, sp, hash, response)
  }

  ghost predicate Replies(env: Env, sp: OtelSpan, hash: string, response: string) {
    var c := CacheOf(env.host, sp, env.now);
    c.Some? && c.value.hash == hash ==> c.value.response == response
  }

  /** The cache then holds the response of each model call whose prompt had one
      response only, in the cache before and in the deliveries. */
  lemma CacheHoldsReply(db: Tables, bs: seq<Batch>, hash: string, response: string)
    requires OneReply(bs, hash, response)
    requires hash in db.cache ==> db.cache[hash].response == response
    ensures var after := AfterAll(db, bs);
            hash in after.cache ==> after.cache[hash].response == response
  {
    hide AfterAll, HistoryWrites, ApplyAll, CacheOf, MapSpan, SpansIn;
    var ws := HistoryWrites(db, bs);
    AfterIsWrites(db, bs);
    forall w | w in ws && w.PutCache? && w.row.hash == hash ensures w.row.response == response {
      var b, sp := HistoryGiver(db, bs, w);
      assert Replies(b.env, sp, hash, response);
    }
    CacheSettles(db, ws, hash, response);
  }

  // ---------- the whole round ----------

  /** The branch is built from exactly the recorded rows and re-runs the script
      that was recorded. */
  lemma BranchOfRecording(db: Tables, h: Host, s: Session, es: seq<Event>, xs: seq<Span>)
    requires Holds(db, h, s, es) && StoreOrder(db.spans, s.trace, xs)
    ensures xs == Rows(h, s, es) && |xs| == |es| + 1 && Entrypoint(xs) == Some(s.entrypoint)
  {
    hide StoreOrder, WellStamped;
    HeldParts(db, h, s, es);
    StampCount(s, es);
    SameListing(db, s.trace, xs, Rows(h, s, es));
    RootEntrypoint(h, s, es);
  }

  lemma RootEntrypoint(h: Host, s: Session, es: seq<Event>)
    requires WellStamped(s, es)
    ensures Entrypoint(Rows(h, s, es)) == Some(s.entrypoint)
  {
    hide GetReal, GetInt, GetBool, InferKind, StatusOf;
  }

  lemma MessageStep(db: Tables, w: Write)
    requires KeyedMessages(db)
    ensures KeyedMessages(Apply(db, w))
  {}

  lemma {:induction false} MessagesStayKeyed(db: Tables, ws: seq<Write>)
    requires KeyedMessages(db)
    ensures KeyedMessages(ApplyAll(db, ws))
    decreases |ws|
  {
    hide Apply, KeyedMessages;
    if |ws| > 0 {
      MessageStep(db, ws[0]);
      MessagesStayKeyed(Apply(db, ws[0]), ws[1..]);
    }
  }

  /** The deliveries bring the run as a new trace. */
  ghost predicate BringsRun(db: Tables, h: Host, bs: seq<Batch>, s: Session, es: seq<Event>) {
    && WellStamped(s, es) && Faithful(h, bs, s, es) && Arrives(bs, s, es)
    && NewTrace(db, s.trace) && (forall id :: OwnId(s, id) ==> id !in db.tools)
  }

  lemma RunBrought(db: Tables, h: Host, bs: seq<Batch>, s: Session, es: seq<Event>)
    requires BringsRun(db, h, bs, s, es) && KeyedMessages(db)
    ensures Holds(AfterAll(db, bs), h, s, es) && KeyedMessages(AfterAll(db, bs)) && |s.stamps| == |es| + 1
  {
    hide AfterAll, Holds, KeyedMessages, ApplyAll, HistoryWrites, Arrives;
    StampCount(s, es);
    IngestionRecords(db, h, bs, s, es);
    AfterIsWrites(db, bs);
    MessagesStayKeyed(db, HistoryWrites(db, bs));
  }

  /** Record, branch, replay, compare. The spans of a run are delivered; its
      manifest is built with one tool response laid over it; the script is replayed
      under it and its spans are delivered too. The diff of the two stored traces
      is empty if the recording is repeatable with that response, and then the
      replay made the same calls. If it is not, and the first call that was
      answered differently did not fail both times, the diff points at the first
      of the spans around that call that ended differently, or if they all ended
      alike, at the call; if it did, that holds as far as the spans around go. */
  lemma BranchRound(agent: Agent, h: Host, db: Tables, bs: seq<Batch>, s: Session, es: seq<Event>,
                    xs: seq<Span>, ms: seq<Manifest>, name: string, value: string, live: Live,
                    cs: seq<Batch>, u: Session, rs: seq<Event>, a: seq<Span>, b: seq<Span>)
    requires Finished(agent, es) && EndsAs(agent, es, s) && BringsRun(db, h, bs, s, es) && KeyedMessages(db)
    requires var mid := AfterAll(db, bs);
             && StoreOrder(mid.spans, s.trace, xs) && Turns(mid, xs, ms)
             && Finished(agent, rs) && EndsAs(agent, rs, u) && IsReplay(agent, Mutate(ms[|xs|], name, value), live, rs)
             && BringsRun(mid, h, cs, u, rs) && Faithful(h, cs, s, es)
             && u.title == s.title && u.entrypoint == s.entrypoint
             && StoreOrder(AfterAll(mid, cs).spans, s.trace, a)
             && StoreOrder(AfterAll(mid, cs).spans, u.trace, b)
    ensures var mid, m, d :=
              AfterAll(db, bs), Mutate(ms[|xs|], name, value), Diff.FirstDivergence(Diff.Alignment(a, b, Diff.Key));
            var n := FirstUnpinned(m, live, es, 0);
            && (Repeatable(mid, s, es, name, value, live) ==> d == None && rs == es)
            && (d == None && !FailsTwice(m, live, es) ==> Repeatable(mid, s, es, name, value, live))
            && (d != None && !FailsTwice(m, live, es) ==>
                  n < |es| && n < |rs| && PointsAt(agent, s, es, u, n, d.value))
            && (n < |es| ==> AroundCall(agent, s, es, u, n, d))
  {
    hide *;
    var mid := AfterAll(db, bs);
    RunBrought(db, h, bs, s, es);
    BranchOfRecording(mid, h, s, es, xs);
    RunBrought(mid, h, cs, u, rs);
    RecordingOutlives(mid, h, cs, s, es);
    ReplayDiff(agent, h, mid, s, es, ms, name, value, live, AfterAll(mid, cs), u, rs, a, b);
  }
}
