/**
 The cloud store's objects: a connection bound to one tenant, and the wrapper
 around it that keeps long payloads in object storage.
 */
module CloudStore {
  import opened Spans
  import opened Db
  import opened Cloud
  import opened Export
  import Ingest

  /** The database all tenants share. */
  class Postgres {
    var projects: seq<(Tenant, Project)>
    var traces: map<(Tenant, TraceId), Trace>
    var spans: map<(Tenant, SpanId), Span>
    var messages: map<(Tenant, Ulid), Message>
    var tools: map<(Tenant, SpanId), ToolCall>
    var cache: map<(Tenant, string), CacheRow>
    var bps: map<(Tenant, Ulid), BpRow>

    constructor ()
      ensures Rows() == NO_ROWS
    {
      projects, traces, spans, messages, tools, cache, bps := [], map[], map[], map[], map[], map[], map[];
    }

    function Rows(): Shared
      reads this
    {
      Shared(projects, traces, spans, messages, tools, cache, bps)
    }
  }

  class Bucket {
    var objects: Objects

    constructor ()
      ensures objects == map[]
    {
      objects := map[];
    }
  }

  // ---------- the order of the shared table ----------

  /** Rows without a start come last, the others by start; then by id. */
  predicate PgBefore(a: Span, b: Span) {
    || (a.start.Some? && (b.start.None? || a.start.value < b.start.value))
    || (a.start == b.start && a.id < b.id)
  }

  ghost predicate PgOrder(spans: map<SpanId, Span>, t: TraceId, xs: seq<Span>) {
    && (forall i, j :: 0 <= i < j < |xs| ==> PgBefore(xs[i], xs[j]))
    && (forall s :: s in xs <==> s.id in spans && spans[s.id] == s && s.trace == t)
  }

  /** Where every span has a start this is the plain store's order. */
  lemma PgOrderIsStoreOrder(spans: map<SpanId, Span>, t: TraceId, xs: seq<Span>)
    requires PgOrder(spans, t, xs) && forall k :: k in spans ==> spans[k].start.Some?
    ensures StoreOrder(spans, t, xs)
  {
    forall i, j | 0 <= i < j < |xs| ensures Before(xs[i], xs[j]) {
      assert xs[i] in xs && xs[j] in xs && PgBefore(xs[i], xs[j]);
    }
  }

  /** The spans that have a start, or those that have none. */
  function Timed(spans: map<SpanId, Span>, timed: bool): map<SpanId, Span> {
    map k | k in spans && spans[k].start.Some? == timed :: spans[k]
  }

  lemma NullsLast(spans: map<SpanId, Span>, t: TraceId, first: seq<Span>, last: seq<Span>)
    requires StoreOrder(Timed(spans, true), t, first) && StoreOrder(Timed(spans, false), t, last)
    ensures PgOrder(spans, t, first + last)
  {
    PartOrder(spans, t, true, first);
    PartOrder(spans, t, false, last);
    hide StoreOrder, Timed;
    var xs, n := first + last, |first|;
    forall i, j | 0 <= i < j < |xs| ensures PgBefore(xs[i], xs[j]) {
      assert i >= n ==> PgBefore(last[i - n], last[j - n]);
    }
  }

  lemma PartOrder(spans: map<SpanId, Span>, t: TraceId, timed: bool, xs: seq<Span>)
    requires StoreOrder(Timed(spans, timed), t, xs)
    ensures forall i :: 0 <= i < |xs| ==> xs[i].start.Some? == timed
    ensures forall i, j :: 0 <= i < j < |xs| ==> PgBefore(xs[i], xs[j])
    ensures forall s :: s in xs <==> s.id in spans && spans[s.id] == s && s.trace == t && s.start.Some? == timed
  {
    forall i | 0 <= i < |xs| ensures xs[i].start.Some? == timed {
      assert xs[i] in xs;
    }
  }

  // ---------- one tenant's connection ----------

  class PgStore {
    const db: Postgres
    const tenant: Tenant

    constructor (db: Postgres, tenant: Tenant)
      ensures this.db == db && this.tenant == tenant
    {
      this.db, this.tenant := db, tenant;
    }

    method EnsureProject(name: string, drawn: Ulid) returns (id: Ulid)
      modifies db`projects
      ensures match ResolveProject(View(old(db.Rows()), tenant).projects, name)
              case Some(p) => id == p && db.Rows() == old(db.Rows())
              case None => id == drawn && db.Rows() == PgApply(old(db.Rows()), tenant, PutProject(Project(id, name)))
    {
      var row := ResolveProject(ProjectsOf(db.projects, tenant), name);
      if row.Some? { return row.value; }
      id := drawn;
      db.projects := db.projects + [(tenant, Project(id, name))];
    }

    method UpsertTrace(t: Trace)
      modifies db`traces
      ensures db.Rows() == PgApply(old(db.Rows()), tenant, PutTrace(t))
    {
      db.traces := db.traces[(tenant, t.id) := t];
    }

    method UpsertSpan(s: Span)
      modifies db`spans
      ensures db.Rows() == PgApply(old(db.Rows()), tenant, PutSpan(s))
    {
      db.spans := db.spans[(tenant, s.id) := s];
    }

    method InsertMessage(m: Message)
      modifies db`messages
      ensures db.Rows() == PgApply(old(db.Rows()), tenant, PutMessage(m))
    {
      db.messages := db.messages[(tenant, m.id) := m];
    }

    method InsertToolCall(c: ToolCall)
      modifies db`tools
      ensures db.Rows() == PgApply(old(db.Rows()), tenant, PutTool(c))
    {
      db.tools := db.tools[(tenant, c.span) := c];
    }

    method UpsertLlmCache(c: CacheRow)
      modifies db`cache
      ensures db.Rows() == PgApply(old(db.Rows()), tenant, PutCache(c))
    {
      db.cache := db.cache[(tenant, c.hash) := c];
    }

    method AddBreakpoint(project: Ulid, name: Option<string>, dsl: string, drawn: Ulid) returns (id: Ulid)
      modifies db`bps
      ensures id == drawn
      ensures db.Rows() == PgApply(old(db.Rows()), tenant,
                                   AddBp(BpRow(id, project, name, dsl, true, 0, None, None, None)))
    {
      id := drawn;
      db.bps := db.bps[(tenant, id) := BpRow(id, project, name, dsl, true, 0, None, None, None)];
    }

    method DeleteBreakpoint(id: Ulid)
      modifies db`bps
      ensures db.Rows() == PgApply(old(db.Rows()), tenant, DeleteBp(id))
    {
      db.bps := db.bps - {(tenant, id)};
    }

    method RecordBreakpointHit(id: Ulid, spanId: SpanId, traceId: TraceId, when: Time)
      modifies db`bps
      ensures db.Rows() == PgApply(old(db.Rows()), tenant, Hit(id, spanId, traceId, when))
    {
      if (tenant, id) in db.bps {
        var b := db.bps[(tenant, id)];
        db.bps := db.bps[(tenant, id) :=
          b.(hits := b.hits + 1, lastAt := Some(when), lastSpan := Some(spanId), lastTrace := Some(traceId))];
      }
    }

    method GetSpans(t: TraceId) returns (xs: seq<Span>)
      requires Keyed(View(db.Rows(), tenant).spans)
      ensures PgOrder(View(db.Rows(), tenant).spans, t, xs)
    {
      var rows := Scoped(db.spans, tenant);
      var timed, untimed := Timed(rows, true), Timed(rows, false);
      var first := SelectSpans(timed, t);
      var last := SelectSpans(untimed, t);
      NullsLast(rows, t, first, last);
      xs := first + last;
    }

    method GetMessages(span: SpanId) returns (xs: seq<Message>)
      requires KeyedMessages(View(db.Rows(), tenant).messages)
      ensures Conversation(View(db.Rows(), tenant).messages, span, xs)
      ensures forall i :: 0 <= i < |xs| ==> xs[i] == View(db.Rows(), tenant).messages[xs[i].id]
    {
      xs := SelectMessages(Scoped(db.messages, tenant), span);
    }

    method GetToolCall(span: SpanId) returns (r: Option<ToolCall>)
      ensures var rows := View(db.Rows(), tenant).tools; r == if span in rows then Some(rows[span]) else None
    {
      r := if (tenant, span) in db.tools then Some(db.tools[(tenant, span)]) else None;
    }

    method GetLlmCache(hash: string) returns (r: Option<CacheRow>)
      ensures var rows := View(db.Rows(), tenant).cache; r == if hash in rows then Some(rows[hash]) else None
    {
      r := if (tenant, hash) in db.cache then Some(db.cache[(tenant, hash)]) else None;
    }
  }

  // ---------- payloads out of the row ----------

  datatype Fetched<T> = Missing | Found(value: T) | Failed

  /** The private store's rows, with the cached texts as the wrapper reads them;
      a row whose text cannot be fetched is left out. */
  ghost function Shown(c: State, t: Tenant, db: Tables): Tables {
    db.(cache := map h | h in db.cache && h in View(c.sh, t).cache
                         && CachedText(c.s3, View(c.sh, t).cache[h].response).Some?
                   :: db.cache[h].(response := CachedText(c.s3, View(c.sh, t).cache[h].response).value))
  }

  class S3OffloadStore {
    const inner: PgStore
    const s3: Bucket
    const cfg: Config
    const tenant: Tenant

    constructor (inner: PgStore, s3: Bucket, cfg: Config)
      ensures this.inner == inner && this.s3 == s3 && this.cfg == cfg && tenant == inner.tenant
    {
      this.inner, this.s3, this.cfg, tenant := inner, s3, cfg, inner.tenant;
    }

    function Here(): State
      reads inner.db, s3
    {
      State(inner.db.Rows(), s3.objects)
    }

    /** The rows stand for those of a private store, and payloads can be read. */
    ghost predicate Mirrors(db: Tables)
      reads inner.db, s3
    {
      && tenant == inner.tenant && '/' !in cfg.bucket
      && StandsFor(cfg, Here(), tenant, db) && OnlySpilled(cfg, s3.objects)
      && Keyed(db.spans) && KeyedMessages(db.messages)
    }

    method Put(content: string, uuid: string) returns (uri: string)
      modifies s3
      ensures uri == Uri(cfg.bucket, ObjectKey(cfg, tenant, uuid))
      ensures s3.objects == old(s3.objects)[(cfg.bucket, ObjectKey(cfg, tenant, uuid)) := content]
    {
      var key := ObjectKey(cfg, tenant, uuid);
      s3.objects := s3.objects[(cfg.bucket, key) := content];
      uri := Uri(cfg.bucket, key);
    }

    method MaybeOffload(content: Option<string>, uuid: string) returns (inline: Option<string>, ref: Option<string>)
      modifies s3
      ensures Offloaded(inline, ref, s3.objects) == Offload(cfg, old(s3.objects), tenant, content, uuid)
    {
      if content.None? || !Spills(cfg, content.value) { return content, None; }
      var uri := Put(content.value, uuid);
      return None, Some(uri);
    }

    method InsertMessage(m: Message, us: (string, string))
      requires tenant == inner.tenant
      modifies inner.db, s3
      ensures Here() == CloudApply(cfg, old(Here()), tenant, PutMessage(m), us)
    {
      var inline, ref := MaybeOffload(m.content, us.0);
      var row := if ref.Some? then m.(content := inline, contentRef := ref) else m;
      inner.InsertMessage(row);
    }

    method InsertToolCall(c: ToolCall, us: (string, string))
      requires tenant == inner.tenant
      modifies inner.db, s3
      ensures Here() == CloudApply(cfg, old(Here()), tenant, PutTool(c), us)
    {
      var row := c;
      var inline, ref := MaybeOffload(c.args, us.0);
      if ref.Some? { row := row.(args := inline, argsRef := ref); }
      inline, ref := MaybeOffload(c.result, us.1);
      if ref.Some? { row := row.(result := inline, resultRef := ref); }
      inner.InsertToolCall(row);
    }

    method UpsertLlmCache(c: CacheRow, us: (string, string))
      requires tenant == inner.tenant
      modifies inner.db, s3
      ensures Here() == CloudApply(cfg, old(Here()), tenant, PutCache(c), us)
    {
      var inline, ref := MaybeOffload(Some(c.response), us.0);
      var row := if ref.Some? then c.(response := ref.value) else c;
      inner.UpsertLlmCache(row);
    }

    method MaybeInline(inline: Option<string>, ref: Option<string>) returns (r: Option<string>)
      requires inline.None? && ref.Some? && SCHEME <= ref.value ==> ParseUri(ref.value) in s3.objects
      ensures r == Inlined(s3.objects, inline, ref)
    {
      if inline.Some? { return inline; }
      if ref.Some? && SCHEME <= ref.value { return Some(s3.objects[ParseUri(ref.value)]); }
      return None;
    }

    /** The conversation of a span as a private store returns it. */
    method GetMessages(span: SpanId, ghost db: Tables) returns (rows: seq<Message>)
      requires Mirrors(db)
      ensures Conversation(db.messages, span, rows)
    {
      hide View, Conversation, StandsFor, Inlined, SCHEME, OnlySpilled, KeyedMessages, Keyed;
      MirrorsKeyed(Here(), db);
      rows := inner.GetMessages(span);
      ghost var was := rows;
      RowsResolve(Here(), db, span, was);
      var i := 0;
      while i < |rows|
        invariant i <= |rows| == |was|
        invariant forall k :: i <= k < |rows| ==> rows[k] == was[k]
        invariant forall k :: 0 <= k < i ==> rows[k] == WithText(Here().s3, was[k])
      {
        assert Resolves(Here().s3, was[i]);
        var text := MaybeInline(rows[i].content, rows[i].contentRef);
        rows := rows[i := rows[i].(content := text)];
        i := i + 1;
      }
      ConversationShown(Here(), db, span, was, rows);
    }

    method GetToolCall(span: SpanId, ghost db: Tables) returns (r: Option<ToolCall>)
      requires Mirrors(db)
      ensures r.Some? == (span in db.tools) && (r.Some? ==> SameTool(r.value, db.tools[span]))
    {
      hide View, StandsFor, Inlined, SCHEME, OnlySpilled, SameTool;
      r := inner.GetToolCall(span);
      ToolShown(Here(), db, span);
      if r.Some? {
        var args := MaybeInline(r.value.args, r.value.argsRef);
        var result := MaybeInline(r.value.result, r.value.resultRef);
        r := Some(r.value.(args := args, result := result));
      }
    }

    /** A cached row: missing, as a private store has it, or failed to fetch. */
    method GetLlmCache(hash: string, ghost db: Tables) returns (r: Fetched<CacheRow>)
      requires Mirrors(db)
      ensures match r
              case Missing => hash !in db.cache
              case Failed => hash in db.cache && hash !in Shown(Here(), tenant, db).cache
              case Found(row) => hash in Shown(Here(), tenant, db).cache && row == Shown(Here(), tenant, db).cache[hash]
      ensures hash in db.cache ==> (r == Found(db.cache[hash]) <==> Readable(cfg, db.cache[hash].response))
    {
      hide View, StandsFor, ParseUri, OnlySpilled, Readable;
      var row := inner.GetLlmCache(hash);
      ReplyShown(Here(), db, hash);
      if row.None? { return Missing; }
      var ref := row.value.response;
      if SCHEME <= ref {
        if ParseUri(ref) !in s3.objects { return Failed; }
        return Found(row.value.(response := s3.objects[ParseUri(ref)]));
      }
      return Found(row.value);
    }

    /** The export through the wrapper. It is the private store's bundle exactly
        when every cached response it needs can be read back. */
    method ExportTrace(t: TraceId, ghost db: Tables) returns (r: Option<Bundle>)
      requires Mirrors(db) && NotNull(db)
      ensures r.Some? ==> BundleOf(Shown(Here(), tenant, db), t, r.value)
      ensures (r.Some? && BundleOf(db, t, r.value)) <==> RepliesReadable(cfg, db, t)
    {
      hide View, StandsFor, OnlySpilled, Bundled, Conversation, StoreOrder, PgOrder, NotNull, Shown, BundleOf, Readable,
           KeyedMessages, Keyed, RepliesReadable, HitFor;
      var spans := SpansShown(t, db);
      ghost var shown := Shown(Here(), tenant, db);
      ShownRows(Here(), db);
      var b := Bundle(t, spans, map[], map[], map[]);
      NothingBundled(shown, spans, t);
      var n := 0;
      while n < |spans|
        invariant n <= |spans| && b.trace == t && b.spans == spans && Bundled(shown, spans, n, b)
        invariant forall k :: 0 <= k < n ==> HitFetched(shown, db, spans[k])
      {
        var s := spans[n];
        var ms := GetMessages(s.id, db);
        var tool := GetToolCall(s.id, db);
        var hit := None;
        if Ingest.Truthy(s.promptHash) {
          var found := GetLlmCache(s.promptHash.value, db);
          if found.Failed? {
            CannotExport(Here(), db, t, spans, n);
            return None;
          }
          if found.Found? { hit := Some(found.value); }
        }
        HitIs(shown, db, s, hit);
        BundleStep(shown, spans, n, b, ms, tool);
        b := WithSpan(b, s, ms, tool, hit);
        n := n + 1;
      }
      ExportExact(Here(), db, t, b);
      r := Some(b);
    }

    method SpansShown(t: TraceId, ghost db: Tables) returns (xs: seq<Span>)
      requires Mirrors(db) && NotNull(db)
      ensures StoreOrder(db.spans, t, xs)
    {
      hide View, MessagesStand, ToolsStand, RepliesStand, OnlySpilled, KeyedMessages, StoreOrder;
      xs := inner.GetSpans(t);
      PgOrderIsStoreOrder(db.spans, t, xs);
    }

    lemma ToolShown(c: State, db: Tables, span: SpanId)
      requires StandsFor(cfg, c, tenant, db) && '/' !in cfg.bucket
      ensures span in View(c.sh, tenant).tools <==> span in db.tools
      ensures span in db.tools ==>
                var row := View(c.sh, tenant).tools[span];
                && (row.args.None? && row.argsRef.Some? && SCHEME <= row.argsRef.value ==>
                      ParseUri(row.argsRef.value) in c.s3)
                && (row.result.None? && row.resultRef.Some? && SCHEME <= row.resultRef.value ==>
                      ParseUri(row.resultRef.value) in c.s3)
                && SameTool(row.(args := Inlined(c.s3, row.args, row.argsRef),
                                 result := Inlined(c.s3, row.result, row.resultRef)),
                            db.tools[span])
    {
      hide View, Stands, Inlined;
      if span in db.tools {
        var row, d := View(c.sh, tenant).tools[span], db.tools[span];
        assert ToolStands(cfg, c.s3, row, d);
        PayloadReads(cfg, c.s3, row.args, row.argsRef, d.args);
        PayloadReads(cfg, c.s3, row.result, row.resultRef, d.result);
      }
    }

    lemma ReplyShown(c: State, db: Tables, hash: string)
      requires StandsFor(cfg, c, tenant, db) && '/' !in cfg.bucket && OnlySpilled(cfg, c.s3)
      ensures hash in View(c.sh, tenant).cache <==> hash in db.cache
      ensures hash in db.cache ==>
                var row := View(c.sh, tenant).cache[hash];
                && row.(response := db.cache[hash].response) == db.cache[hash]
                && (CachedText(c.s3, row.response) == Some(db.cache[hash].response)
                    <==> Readable(cfg, db.cache[hash].response))
    {
      hide View, OnlySpilled, CachedText;
      if hash in db.cache {
        assert CacheStands(cfg, c.s3, View(c.sh, tenant).cache[hash], db.cache[hash]);
        CachedReads(cfg, c.s3, View(c.sh, tenant).cache[hash], db.cache[hash]);
      }
    }

    /** The wrapper reads the same tables but for cached texts it cannot read. */
    lemma ShownRows(c: State, db: Tables)
      requires StandsFor(cfg, c, tenant, db) && '/' !in cfg.bucket && OnlySpilled(cfg, c.s3)
      ensures var shown := Shown(c, tenant, db);
              && shown.spans == db.spans && shown.messages == db.messages && shown.tools == db.tools
              && (forall h :: h in shown.cache ==> h in db.cache)
              && (forall h :: h in db.cache ==>
                    (h in shown.cache && shown.cache[h] == db.cache[h] <==> Readable(cfg, db.cache[h].response)))
    {
      hide View, OnlySpilled, CachedText, Readable, StandsFor;
      forall h | h in db.cache
        ensures h in Shown(c, tenant, db).cache && Shown(c, tenant, db).cache[h] == db.cache[h]
                <==> Readable(cfg, db.cache[h].response)
      {
        ReplyShown(c, db, h);
      }
    }

    lemma CannotExport(c: State, db: Tables, t: TraceId, xs: seq<Span>, n: nat)
      requires StandsFor(cfg, c, tenant, db) && '/' !in cfg.bucket && OnlySpilled(cfg, c.s3)
      requires StoreOrder(db.spans, t, xs) && n < |xs| && Ingest.Truthy(xs[n].promptHash)
      requires xs[n].promptHash.value in db.cache && xs[n].promptHash.value !in Shown(c, tenant, db).cache
      ensures !RepliesReadable(cfg, db, t)
    {
      ShownRows(c, db);
      hide View, OnlySpilled, Shown, Readable, StandsFor, SortedSpans;
      assert xs[n] in xs;
      assert AsksFor(db, t, xs[n].promptHash.value);
    }

    lemma ExportExact(c: State, db: Tables, t: TraceId, b: Bundle)
      requires StandsFor(cfg, c, tenant, db) && '/' !in cfg.bucket && OnlySpilled(cfg, c.s3)
      requires b.trace == t && StoreOrder(db.spans, t, b.spans) && Bundled(Shown(c, tenant, db), b.spans, |b.spans|, b)
      requires forall k :: 0 <= k < |b.spans| ==> HitFetched(Shown(c, tenant, db), db, b.spans[k])
      ensures BundleOf(Shown(c, tenant, db), t, b)
      ensures BundleOf(db, t, b) <==> RepliesReadable(cfg, db, t)
    {
      ShownRows(c, db);
      hide View, OnlySpilled, Shown, StandsFor, Readable, StoreOrder, HitFetched, RepliesReadable, Bundled, BundleOf;
      ShownExport(cfg, Shown(c, tenant, db), db, t, b);
    }

    lemma MirrorsKeyed(c: State, db: Tables)
      requires StandsFor(cfg, c, tenant, db) && KeyedMessages(db.messages) && Keyed(db.spans)
      ensures KeyedMessages(View(c.sh, tenant).messages) && Keyed(View(c.sh, tenant).spans)
      ensures forall k :: k in View(c.sh, tenant).messages ==>
                k in db.messages && db.messages[k].span == View(c.sh, tenant).messages[k].span
                && db.messages[k].at == View(c.sh, tenant).messages[k].at
      ensures forall k :: k in db.messages ==> k in View(c.sh, tenant).messages
    {
      hide View, Stands;
      var v := View(c.sh, tenant).messages;
      forall k | k in v ensures v[k].id == k && db.messages[k].span == v[k].span && db.messages[k].at == v[k].at {
        assert k in db.messages && MessageStands(cfg, c.s3, v[k], db.messages[k]);
      }
    }

    /** The stored rows of a conversation have references that resolve. */
    lemma RowsResolve(c: State, db: Tables, span: SpanId, was: seq<Message>)
      requires StandsFor(cfg, c, tenant, db) && '/' !in cfg.bucket
      requires Conversation(View(c.sh, tenant).messages, span, was)
      requires forall i :: 0 <= i < |was| ==> was[i] == View(c.sh, tenant).messages[was[i].id]
      ensures forall i :: 0 <= i < |was| ==> Resolves(c.s3, was[i])
    {
      hide View, Stands, Resolves;
      forall i | 0 <= i < |was| ensures Resolves(c.s3, was[i]) {
        MessageShown(c, db, was[i]);
      }
    }

    lemma MessageShown(c: State, db: Tables, row: Message)
      requires StandsFor(cfg, c, tenant, db) && '/' !in cfg.bucket
      requires row.id in View(c.sh, tenant).messages && View(c.sh, tenant).messages[row.id] == row
      ensures Resolves(c.s3, row)
      ensures row.id in db.messages && SameMessage(WithText(c.s3, row), db.messages[row.id])
    {
      hide View, Stands, Inlined;
      assert row.id in db.messages && MessageStands(cfg, c.s3, row, db.messages[row.id]);
      PayloadReads(cfg, c.s3, row.content, row.contentRef, db.messages[row.id].content);
    }

    lemma ConversationShown(c: State, db: Tables, span: SpanId, was: seq<Message>, rows: seq<Message>)
      requires StandsFor(cfg, c, tenant, db) && '/' !in cfg.bucket && KeyedMessages(db.messages) && Keyed(db.spans)
      requires Conversation(View(c.sh, tenant).messages, span, was) && |rows| == |was|
      requires forall i :: 0 <= i < |was| ==> was[i] == View(c.sh, tenant).messages[was[i].id]
      requires forall i :: 0 <= i < |was| ==> rows[i] == WithText(c.s3, was[i])
      ensures Conversation(db.messages, span, rows)
    {
      hide View, Stands, StandsFor, SameMessage;
      MirrorsKeyed(c, db);
      forall i | 0 <= i < |was|
        ensures rows[i].id == was[i].id && rows[i].at == was[i].at && was[i].id in db.messages
        ensures SameMessage(rows[i], db.messages[was[i].id])
      {
        MessageShown(c, db, was[i]);
      }
      SameConversation(View(c.sh, tenant).messages, db.messages, span, was, rows);
    }
  }

  /** The cached response can be read back as it was written. */
  predicate Readable(cfg: Config, response: string) { Spills(cfg, response) || !(SCHEME <= response) }

  /** Some span of the trace has this prompt. */
  ghost predicate AsksFor(db: Tables, t: TraceId, hash: string) {
    hash != ""
    && exists id :: id in db.spans && db.spans[id].id == id && db.spans[id].trace == t
                    && db.spans[id].promptHash == Some(hash)
  }

  /** Every response cached for a prompt of the trace can be read back. */
  ghost predicate RepliesReadable(cfg: Config, db: Tables, t: TraceId) {
    forall h :: h in db.cache && AsksFor(db, t, h) ==> Readable(cfg, db.cache[h].response)
  }

  lemma PromptedSpans(db: Tables, t: TraceId, xs: seq<Span>)
    requires StoreOrder(db.spans, t, xs)
    ensures forall h :: Prompted(xs, |xs|, h) <==> AsksFor(db, t, h)
  {
    hide SortedSpans;
    forall h | Prompted(xs, |xs|, h) ensures AsksFor(db, t, h) {
      var k :| 0 <= k < |xs| && xs[k].promptHash == Some(h);
      assert xs[k] in xs && db.spans[xs[k].id] == xs[k];
    }
    forall h | AsksFor(db, t, h) ensures Prompted(xs, |xs|, h) {
      var id :| id in db.spans && db.spans[id].id == id && db.spans[id].trace == t && db.spans[id].promptHash == Some(h);
      assert db.spans[id] in xs;
    }
  }

  /** A bundle of the rows as shown is one of the rows themselves exactly when
      nothing it asks for is shown differently. */
  lemma ShownExport(cfg: Config, shown: Tables, db: Tables, t: TraceId, b: Bundle)
    requires shown.spans == db.spans && shown.messages == db.messages && shown.tools == db.tools
    requires forall h :: h in shown.cache ==> h in db.cache
    requires forall h :: h in db.cache ==>
               (h in shown.cache && shown.cache[h] == db.cache[h] <==> Readable(cfg, db.cache[h].response))
    requires b.trace == t && StoreOrder(db.spans, t, b.spans) && Bundled(shown, b.spans, |b.spans|, b)
    requires forall k :: 0 <= k < |b.spans| ==> HitFetched(shown, db, b.spans[k])
    ensures BundleOf(shown, t, b)
    ensures BundleOf(db, t, b) <==> RepliesReadable(cfg, db, t)
  {
    hide Readable, StoreOrder, Conversation;
    var xs := b.spans;
    assert MessagesBundled(db, xs, |xs|, b) && ToolsBundled(db, xs, |xs|, b);
    PromptedSpans(db, t, xs);
    AllFetched(shown, db, xs);
    hide MessagesBundled, ToolsBundled, HitFetched, Prompted, AsksFor;
  }

  lemma AllFetched(shown: Tables, db: Tables, xs: seq<Span>)
    requires forall k :: 0 <= k < |xs| ==> HitFetched(shown, db, xs[k])
    ensures forall h :: Prompted(xs, |xs|, h) && h in db.cache ==> h in shown.cache
  {
    forall h | Prompted(xs, |xs|, h) && h in db.cache ensures h in shown.cache {
      var k :| 0 <= k < |xs| && xs[k].promptHash == Some(h);
      assert HitFetched(shown, db, xs[k]);
    }
  }

  /** The cached response the span asks for, if there is one, was fetched. */
  ghost predicate HitFetched(shown: Tables, db: Tables, s: Span) {
    Ingest.Truthy(s.promptHash) && s.promptHash.value in db.cache ==> s.promptHash.value in shown.cache
  }

  lemma HitIs(shown: Tables, db: Tables, s: Span, hit: Option<CacheRow>)
    requires forall h :: h in shown.cache ==> h in db.cache
    requires if Ingest.Truthy(s.promptHash) && s.promptHash.value in db.cache
             then s.promptHash.value in shown.cache && hit == Some(shown.cache[s.promptHash.value]) else hit == None
    ensures hit == HitFor(shown, s) && HitFetched(shown, db, s)
  {}

  function WithText(s3: Objects, m: Message): Message { m.(content := Inlined(s3, m.content, m.contentRef)) }

  predicate Resolves(s3: Objects, m: Message) {
    m.content.None? && m.contentRef.Some? && SCHEME <= m.contentRef.value ==> ParseUri(m.contentRef.value) in s3
  }

  lemma SameConversation(v: map<Ulid, Message>, ms: map<Ulid, Message>, span: SpanId, was: seq<Message>,
                         rows: seq<Message>)
    requires Conversation(v, span, was) && |rows| == |was|
    requires forall k :: k in ms ==> k in v
    requires forall k :: k in v ==> k in ms && ms[k].span == v[k].span && ms[k].at == v[k].at
    requires forall i :: 0 <= i < |was| ==> rows[i].id == was[i].id && rows[i].at == was[i].at && was[i].id in ms
    requires forall i :: 0 <= i < |was| ==> SameMessage(rows[i], ms[was[i].id])
    ensures Conversation(ms, span, rows)
  {
    hide SameMessage;
    forall k | k in ms && ms[k].span == span ensures Has(rows, k) {
      assert k in v && Has(was, k);
      var i :| 0 <= i < |was| && was[i].id == k;
      assert rows[i].id == k;
    }
  }

  // ---------- any history ----------

  /** Rows are stored under their own ids and have no empty required column. */
  ghost predicate WellKept(db: Tables) {
    Keyed(db.spans) && KeyedMessages(db.messages) && NotNull(db)
  }

  lemma OneWellKept(db: Tables, w: Write)
    requires WellKept(db) && Accepts(w)
    ensures WellKept(Apply(db, w))
  {
    hide RecordHit;
  }

  lemma {:induction false} RunsAreWellKept(db: Tables, ws: seq<Write>)
    requires WellKept(db)
    ensures WellKept(Run(db, ws).db)
    decreases |ws|
  {
    if |ws| > 0 && Accepts(ws[0]) {
      OneWellKept(db, ws[0]);
      hide WellKept, Apply, Accepts;
      RunsAreWellKept(Apply(db, ws[0]), ws[1..]);
    }
  }

  /** After any interleaving of the writes of any number of tenants, the wrapper
      of each tenant mirrors a private store that was given that tenant's writes
      alone; so what it reads and exports is what the private store would. */
  lemma EveryHistoryMirrors(store: S3OffloadStore, ops: seq<Op>)
    requires store.tenant == store.inner.tenant && '/' !in store.cfg.bucket
    requires Runnable(store.cfg, State(NO_ROWS, map[]), ops) && AllAccepted(OwnWrites(ops, store.tenant))
    requires store.Here() == CloudRun(store.cfg, State(NO_ROWS, map[]), ops)
    ensures var db := Run(EMPTY, OwnWrites(ops, store.tenant)).db; store.Mirrors(db) && NotNull(db)
  {
    hide Runnable, CloudRun, StandsFor, OnlySpilled, Run;
    TenantsAreAlone(store.cfg, ops, store.tenant);
    RunsAreWellKept(EMPTY, OwnWrites(ops, store.tenant));
  }
}
