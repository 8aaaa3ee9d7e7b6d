/**
 Reading a trace back: the messages of a span in order, and the portable bundle
 of a trace with everything recorded for its spans.
 */
module Export {
  import opened Spans
  import opened Db
  import Ingest

  // ---------- messages ----------

  /** Two rows of one message, wherever their payload is kept. */
  predicate SameMessage(a: Message, b: Message) { a.(contentRef := None) == b.(contentRef := None) }

  predicate SameTool(a: ToolCall, b: ToolCall) {
    a.(argsRef := None, resultRef := None) == b.(argsRef := None, resultRef := None)
  }

  ghost predicate KeyedMessages(ms: map<Ulid, Message>) {
    forall k :: k in ms ==> ms[k].id == k
  }

  ghost predicate InTurn(xs: seq<Message>) {
    forall i, j :: 0 <= i < j < |xs| ==> xs[i].at <= xs[j].at && xs[i].id != xs[j].id
  }

  predicate Has(xs: seq<Message>, id: Ulid) {
    exists i :: 0 <= i < |xs| && xs[i].id == id
  }

  /** The messages of a span, each once, in the order they were said. */
  ghost predicate Conversation(ms: map<Ulid, Message>, span: SpanId, xs: seq<Message>) {
    && InTurn(xs)
    && (forall i :: 0 <= i < |xs| ==> xs[i].id in ms && ms[xs[i].id].span == span && SameMessage(xs[i], ms[xs[i].id]))
    && (forall k :: k in ms && ms[k].span == span ==> Has(xs, k))
  }

  function InsertMessage(m: Message, xs: seq<Message>): (r: seq<Message>)
    ensures |r| == |xs| + 1
  {
    if |xs| == 0 || m.at < xs[0].at then [m] + xs else [xs[0]] + InsertMessage(m, xs[1..])
  }

  lemma LaterInTurn(xs: seq<Message>, x: Message, m: Message)
    requires InTurn(xs) && |xs| > 0 && (x == m || x in xs[1..]) && xs[0].at <= m.at && xs[0].id != m.id
    ensures xs[0].at <= x.at && xs[0].id != x.id
  {}

  lemma {:induction false} InsertInTurn(m: Message, xs: seq<Message>)
    requires InTurn(xs) && forall i :: 0 <= i < |xs| ==> xs[i].id != m.id
    ensures InTurn(InsertMessage(m, xs))
    ensures forall x :: x in InsertMessage(m, xs) <==> x == m || x in xs
  {
    if |xs| > 0 && m.at >= xs[0].at {
      InsertInTurn(m, xs[1..]);
      var rest := InsertMessage(m, xs[1..]);
      assert xs == [xs[0]] + xs[1..];
      forall k | 0 <= k < |rest| ensures xs[0].at <= rest[k].at && xs[0].id != rest[k].id {
        assert rest[k] in rest;
        LaterInTurn(xs, rest[k], m);
      }
    } else {
      assert forall k :: 0 <= k < |xs| ==> xs[k] in xs && m.at <= xs[k].at;
    }
  }

  method SelectMessages(ms: map<Ulid, Message>, span: SpanId) returns (xs: seq<Message>)
    requires KeyedMessages(ms)
    ensures Conversation(ms, span, xs)
    ensures forall i :: 0 <= i < |xs| ==> xs[i] == ms[xs[i].id]
  {
    xs := [];
    var left := ms.Keys;
    while left != {}
      invariant left <= ms.Keys && InTurn(xs)
      invariant forall x :: x in xs <==> x.id in ms && x.id !in left && ms[x.id] == x && x.span == span
    {
      var k :| k in left;
      left := left - {k};
      if ms[k].span == span {
        InsertInTurn(ms[k], xs);
        xs := InsertMessage(ms[k], xs);
      }
    }
    forall k | k in ms && ms[k].span == span ensures Has(xs, k) {
      assert ms[k] in xs;
    }
    assert forall i :: 0 <= i < |xs| ==> xs[i] in xs;
  }

  // ---------- bundles ----------

  datatype Bundle = Bundle(
    trace: TraceId, spans: seq<Span>, messages: map<SpanId, seq<Message>>, tools: map<SpanId, ToolCall>,
    cache: map<string, CacheRow>)

  /** One turn of the export loop. */
  function WithSpan(b: Bundle, s: Span, ms: seq<Message>, tool: Option<ToolCall>, hit: Option<CacheRow>): (r: Bundle)
    ensures r.trace == b.trace && r.spans == b.spans
  {
    var b1 := if |ms| > 0 then b.(messages := b.messages[s.id := ms]) else b;
    var b2 := if tool.Some? then b1.(tools := b1.tools[s.id := tool.value]) else b1;
    if hit.Some? && s.promptHash.Some? then b2.(cache := b2.cache[s.promptHash.value := hit.value]) else b2
  }

  predicate Named(xs: seq<Span>, n: nat, id: SpanId)
    requires n <= |xs|
  {
    exists k :: 0 <= k < n && xs[k].id == id
  }

  predicate Prompted(xs: seq<Span>, n: nat, hash: string)
    requires n <= |xs|
  {
    hash != "" && exists k :: 0 <= k < n && xs[k].promptHash == Some(hash)
  }

  ghost predicate Talks(db: Tables, id: SpanId) {
    exists k :: k in db.messages && db.messages[k].span == id
  }

  ghost predicate MessagesBundled(db: Tables, xs: seq<Span>, n: nat, b: Bundle)
    requires n <= |xs|
  {
    && (forall id :: id in b.messages <==> Named(xs, n, id) && Talks(db, id))
    && (forall id :: id in b.messages ==> Conversation(db.messages, id, b.messages[id]))
  }

  ghost predicate ToolsBundled(db: Tables, xs: seq<Span>, n: nat, b: Bundle)
    requires n <= |xs|
  {
    && (forall id :: id in b.tools <==> Named(xs, n, id) && id in db.tools)
    && (forall id :: id in b.tools ==> SameTool(b.tools[id], db.tools[id]))
  }

  ghost predicate RepliesBundled(db: Tables, xs: seq<Span>, n: nat, b: Bundle)
    requires n <= |xs|
  {
    && (forall h :: h in b.cache <==> Prompted(xs, n, h) && h in db.cache)
    && (forall h :: h in b.cache ==> b.cache[h] == db.cache[h])
  }

  /** The bundle has what the store holds for the first n spans, and no more. */
  ghost predicate Bundled(db: Tables, xs: seq<Span>, n: nat, b: Bundle)
    requires n <= |xs|
  {
    MessagesBundled(db, xs, n, b) && ToolsBundled(db, xs, n, b) && RepliesBundled(db, xs, n, b)
  }

  /** What the exported bundle of a trace promises. */
  ghost predicate BundleOf(db: Tables, t: TraceId, b: Bundle) {
    b.trace == t && StoreOrder(db.spans, t, b.spans) && Bundled(db, b.spans, |b.spans|, b)
  }

  lemma NamedStep(xs: seq<Span>, n: nat)
    requires n < |xs|
    ensures forall id :: Named(xs, n + 1, id) <==> Named(xs, n, id) || id == xs[n].id
    ensures forall h :: Prompted(xs, n + 1, h) <==> Prompted(xs, n, h) || (h != "" && xs[n].promptHash == Some(h))
  {
    forall id ensures Named(xs, n + 1, id) <==> Named(xs, n, id) || id == xs[n].id {
      if k :| 0 <= k < n + 1 && xs[k].id == id { assert k < n || k == n; }
    }
    forall h ensures Prompted(xs, n + 1, h) <==> Prompted(xs, n, h) || (h != "" && xs[n].promptHash == Some(h)) {
      if k :| 0 <= k < n + 1 && xs[k].promptHash == Some(h) { assert k < n || k == n; }
    }
  }

  lemma TalksExactly(db: Tables, id: SpanId, ms: seq<Message>)
    requires Conversation(db.messages, id, ms)
    ensures |ms| > 0 <==> Talks(db, id)
  {
    if |ms| > 0 { assert ms[0].id in db.messages; }
  }

  lemma MessagesStep(db: Tables, xs: seq<Span>, n: nat, b: Bundle, ms: seq<Message>, tool: Option<ToolCall>,
                     hit: Option<CacheRow>)
    requires n < |xs| && MessagesBundled(db, xs, n, b) && Conversation(db.messages, xs[n].id, ms)
    ensures MessagesBundled(db, xs, n + 1, WithSpan(b, xs[n], ms, tool, hit))
  {
    NamedStep(xs, n);
    TalksExactly(db, xs[n].id, ms);
    hide Conversation, Talks, Named, Prompted;
  }

  lemma ToolsStep(db: Tables, xs: seq<Span>, n: nat, b: Bundle, ms: seq<Message>, tool: Option<ToolCall>,
                  hit: Option<CacheRow>)
    requires n < |xs| && ToolsBundled(db, xs, n, b)
    requires tool.Some? == (xs[n].id in db.tools) && (tool.Some? ==> SameTool(tool.value, db.tools[xs[n].id]))
    ensures ToolsBundled(db, xs, n + 1, WithSpan(b, xs[n], ms, tool, hit))
  {
    NamedStep(xs, n);
    hide Named, Prompted, SameTool;
  }

  /** What the cache has for the prompt of a span. */
  function HitFor(db: Tables, s: Span): Option<CacheRow> {
    if Ingest.Truthy(s.promptHash) && s.promptHash.value in db.cache then Some(db.cache[s.promptHash.value]) else None
  }

  lemma RepliesStep(db: Tables, xs: seq<Span>, n: nat, b: Bundle, ms: seq<Message>, tool: Option<ToolCall>)
    requires n < |xs| && RepliesBundled(db, xs, n, b)
    ensures RepliesBundled(db, xs, n + 1, WithSpan(b, xs[n], ms, tool, HitFor(db, xs[n])))
  {
    NamedStep(xs, n);
    hide Named, Prompted;
  }

  lemma BundleStep(db: Tables, xs: seq<Span>, n: nat, b: Bundle, ms: seq<Message>, tool: Option<ToolCall>)
    requires n < |xs| && Bundled(db, xs, n, b) && Conversation(db.messages, xs[n].id, ms)
    requires tool.Some? == (xs[n].id in db.tools) && (tool.Some? ==> SameTool(tool.value, db.tools[xs[n].id]))
    ensures Bundled(db, xs, n + 1, WithSpan(b, xs[n], ms, tool, HitFor(db, xs[n])))
  {
    MessagesStep(db, xs, n, b, ms, tool, HitFor(db, xs[n]));
    ToolsStep(db, xs, n, b, ms, tool, HitFor(db, xs[n]));
    RepliesStep(db, xs, n, b, ms, tool);
    hide MessagesBundled, ToolsBundled, RepliesBundled, WithSpan, HitFor;
  }

  lemma NothingBundled(db: Tables, xs: seq<Span>, t: TraceId)
    ensures Bundled(db, xs, 0, Bundle(t, xs, map[], map[], map[]))
  {}

  /** The plain store's export. */
  method ExportTrace(store: Store, t: TraceId) returns (b: Bundle)
    requires Keyed(store.spans) && KeyedMessages(store.messages)
    ensures BundleOf(store.Snapshot(), t, b)
  {
    hide Bundled, Conversation, StoreOrder;
    var spans := store.GetSpans(t);
    NothingBundled(store.Snapshot(), spans, t);
    b := Bundle(t, spans, map[], map[], map[]);
    var n := 0;
    while n < |spans|
      invariant n <= |spans| && b.trace == t && b.spans == spans && Bundled(store.Snapshot(), spans, n, b)
    {
      var s := spans[n];
      var ms := SelectMessages(store.messages, s.id);
      var tool := if s.id in store.tools then Some(store.tools[s.id]) else None;
      var hit := if Ingest.Truthy(s.promptHash) && s.promptHash.value in store.cache
                 then Some(store.cache[s.promptHash.value]) else None;
      BundleStep(store.Snapshot(), spans, n, b, ms, tool);
      b := WithSpan(b, s, ms, tool, hit);
      n := n + 1;
    }
  }
}
