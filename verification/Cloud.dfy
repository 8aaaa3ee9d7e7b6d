/** The cloud store: shared tables and spilled payloads that look to each tenant like its own store. */
module Cloud {
  import opened Spans
  import opened Db
  import IngestLaws
  import HitCounts

  type Tenant = string

  /** The shared tables; every primary key starts with the tenant. */
  datatype Shared = Shared(
    projects: seq<(Tenant, Project)>,
    traces: map<(Tenant, TraceId), Trace>,
    spans: map<(Tenant, SpanId), Span>,
    messages: map<(Tenant, Ulid), Message>,
    tools: map<(Tenant, SpanId), ToolCall>,
    cache: map<(Tenant, string), CacheRow>,
    bps: map<(Tenant, Ulid), BpRow>)

  // Objects by bucket and key.
  type Objects = map<(string, string), string>

  datatype State = State(sh: Shared, s3: Objects)

  const NO_ROWS := Shared([], map[], map[], map[], map[], map[], map[])

  // ---------- shared tables ----------

  function ProjectsOf(ps: seq<(Tenant, Project)>, t: Tenant): seq<Project> {
    if |ps| == 0 then []
    else if ps[0].0 == t then [ps[0].1] + ProjectsOf(ps[1..], t) else ProjectsOf(ps[1..], t)
  }

  /** The rows of one tenant. */
  function Scoped<K, V>(m: map<(Tenant, K), V>, t: Tenant): map<K, V> {
    map k | k in m && k.0 == t :: k.1 := m[k]
  }

  /** What a connection bound to one tenant sees. */
  function View(sh: Shared, t: Tenant): Tables {
    Tables(ProjectsOf(sh.projects, t), Scoped(sh.traces, t), Scoped(sh.spans, t), Scoped(sh.messages, t),
           Scoped(sh.tools, t), Scoped(sh.cache, t), Scoped(sh.bps, t))
  }

  /** A write through a connection bound to tenant t. The shared tables accept
      spans without a start and cache rows without a model. */
  function PgApply(sh: Shared, t: Tenant, w: Write): Shared {
    match w
    case PutProject(p) => sh.(projects := sh.projects + [(t, p)])
    case PutTrace(r) => sh.(traces := sh.traces[(t, r.id) := r])
    case PutSpan(s) => sh.(spans := sh.spans[(t, s.id) := s])
    case PutMessage(m) => sh.(messages := sh.messages[(t, m.id) := m])
    case PutTool(c) => sh.(tools := sh.tools[(t, c.span) := c])
    case PutCache(c) => sh.(cache := sh.cache[(t, c.hash) := c])
    case AddBp(b) => sh.(bps := sh.bps[(t, b.id) := b])
    case DeleteBp(id) => sh.(bps := sh.bps - {(t, id)})
    case Hit(id, s, tr, when) =>
      if (t, id) in sh.bps then
        var b := sh.bps[(t, id)];
        sh.(bps := sh.bps[(t, id) :=
          b.(hits := b.hits + 1, lastAt := Some(when), lastSpan := Some(s), lastTrace := Some(tr))])
      else sh
  }

  lemma {:induction false} ProjectsJoin(ps: seq<(Tenant, Project)>, p: (Tenant, Project), t: Tenant)
    ensures ProjectsOf(ps + [p], t) == ProjectsOf(ps, t) + if p.0 == t then [p.1] else []
  {
    if |ps| > 0 {
      assert (ps + [p])[0] == ps[0] && (ps + [p])[1..] == ps[1..] + [p];
      ProjectsJoin(ps[1..], p, t);
    } else {
      assert ps + [p] == [p] && [p][1..] == [];
    }
  }

  lemma ScopedPut<K, V>(m: map<(Tenant, K), V>, t: Tenant, k: K, v: V, u: Tenant)
    ensures Scoped(m[(t, k) := v], u) == if u == t then Scoped(m, u)[k := v] else Scoped(m, u)
  {}

  lemma ScopedDrop<K, V>(m: map<(Tenant, K), V>, t: Tenant, k: K, u: Tenant)
    ensures Scoped(m - {(t, k)}, u) == if u == t then Scoped(m, u) - {k} else Scoped(m, u)
  {}

  /** A tenant's write changes its own view as it would a private store, and no
      other tenant's. */
  lemma WritesStayInside(sh: Shared, t: Tenant, w: Write, u: Tenant)
    ensures View(PgApply(sh, t, w), u) == if u == t then Apply(View(sh, u), w) else View(sh, u)
  {
    hide Scoped, ProjectsOf;
    match w
    case PutProject(p) => ProjectsJoin(sh.projects, (t, p), u);
    case PutTrace(r) => ScopedPut(sh.traces, t, r.id, r, u);
    case PutSpan(s) => ScopedPut(sh.spans, t, s.id, s, u);
    case PutMessage(m) => ScopedPut(sh.messages, t, m.id, m, u);
    case PutTool(c) => ScopedPut(sh.tools, t, c.span, c, u);
    case PutCache(c) => ScopedPut(sh.cache, t, c.hash, c, u);
    case AddBp(b) => ScopedPut(sh.bps, t, b.id, b, u);
    case DeleteBp(id) => ScopedDrop(sh.bps, t, id, u);
    case Hit(id, s, tr, when) => HitInside(sh, t, id, s, tr, when, u);
  }

  lemma ScopedAt<K, V>(m: map<(Tenant, K), V>, t: Tenant, k: K)
    ensures k in Scoped(m, t) <==> (t, k) in m
    ensures k in Scoped(m, t) ==> Scoped(m, t)[k] == m[(t, k)]
  {}

  lemma HitInside(sh: Shared, t: Tenant, id: Ulid, s: SpanId, tr: TraceId, when: Time, u: Tenant)
    ensures Scoped(PgApply(sh, t, Hit(id, s, tr, when)).bps, u)
              == if u == t then RecordHit(Scoped(sh.bps, u), id, s, tr, when) else Scoped(sh.bps, u)
  {
    hide Scoped;
    ScopedAt(sh.bps, t, id);
    if (t, id) in sh.bps {
      ScopedPut(sh.bps, t, id, PgApply(sh, t, Hit(id, s, tr, when)).bps[(t, id)], u);
    }
  }

  // ---------- object storage ----------

  datatype Config = Config(bucket: string, prefix: string, threshold: int)

  function ObjectKey(cfg: Config, t: Tenant, uuid: string): string { cfg.prefix + t + "/" + uuid }

  const SCHEME := "s3://"

  function Uri(bucket: string, key: string): string { SCHEME + bucket + "/" + key }

  function FirstSlash(s: string): (n: nat)
    ensures n <= |s| && (forall k :: 0 <= k < n ==> s[k] != '/') && (n < |s| ==> s[n] == '/')
  {
    if |s| == 0 || s[0] == '/' then 0 else 1 + FirstSlash(s[1..])
  }

  /** Bucket and key of a reference: what is before and after the first slash. */
  function ParseUri(uri: string): (string, string)
    requires SCHEME <= uri
  {
    var rest := uri[|SCHEME|..];
    var n := FirstSlash(rest);
    if n < |rest| then (rest[..n], rest[n + 1..]) else (rest, "")
  }

  /** References are read back as they were written exactly when the bucket name
      has no slash in it; the key may have any number. */
  lemma UriRoundTrip(bucket: string, key: string)
    ensures ParseUri(Uri(bucket, key)) == (bucket, key) <==> '/' !in bucket
  {
    var uri := Uri(bucket, key);
    var rest := uri[|SCHEME|..];
    assert rest == bucket + ("/" + key);
    assert rest[|bucket|] == '/' && rest[|bucket| + 1..] == key;
    var n := FirstSlash(rest);
    assert n <= |bucket|;
    if '/' !in bucket {
      assert forall k :: 0 <= k < |bucket| ==> rest[k] == bucket[k];
      assert n == |bucket|;
      assert rest[..n] == bucket;
    } else {
      var k :| 0 <= k < |bucket| && bucket[k] == '/';
      assert rest[k] == '/';
      assert |rest[..n]| < |bucket|;
    }
  }

  /** The reference has this bucket before its first slash and this key after it; a
      reference without a slash has an empty key. */
  ghost predicate Names(uri: string, bucket: string, key: string) {
    '/' !in bucket && (uri == "s3://" + bucket + "/" + key || (key == "" && uri == "s3://" + bucket))
  }

  lemma UriNames(uri: string, bucket: string, key: string)
    requires |uri| >= 5 && uri[..5] == "s3://"
    ensures ParseUri(uri) == (bucket, key) <==> Names(uri, bucket, key)
  {
    var rest := uri[5..];
    var n := FirstSlash(rest);
    assert uri == "s3://" + rest;
    if n < |rest| { assert rest == rest[..n] + "/" + rest[n + 1..]; }
    if Names(uri, bucket, key) {
      if uri == "s3://" + bucket + "/" + key {
        assert uri == Uri(bucket, key);
        UriRoundTrip(bucket, key);
      } else {
        assert rest == bucket;
      }
    }
  }

  function Get(s3: Objects, uri: string): Option<string>
    requires SCHEME <= uri
  {
    if ParseUri(uri) in s3 then Some(s3[ParseUri(uri)]) else None
  }

  /** The payload is moved out of the row. */
  predicate Spills(cfg: Config, content: string) { cfg.bucket != "" && |content| > cfg.threshold }

  datatype Offloaded = Offloaded(inline: Option<string>, ref: Option<string>, s3: Objects)

  function Offload(cfg: Config, s3: Objects, t: Tenant, content: Option<string>, uuid: string): Offloaded {
    if content.None? || !Spills(cfg, content.value) then Offloaded(content, None, s3)
    else
      var key := ObjectKey(cfg, t, uuid);
      Offloaded(None, Some(Uri(cfg.bucket, key)), s3[(cfg.bucket, key) := content.value])
  }

  /** The inline copy if there is one, else what the reference names. */
  function Inlined(s3: Objects, inline: Option<string>, ref: Option<string>): Option<string> {
    if inline.Some? then inline
    else if ref.Some? && SCHEME <= ref.value then Get(s3, ref.value)
    else None
  }

  /** The cached text as it is read; None where fetching it fails. */
  function CachedText(s3: Objects, response: string): Option<string> {
    if SCHEME <= response then Get(s3, response) else Some(response)
  }

  /** The write as it reaches the tables, and the objects after it. */
  function Spilled(cfg: Config, s3: Objects, t: Tenant, w: Write, us: (string, string)): (Write, Objects) {
    match w
    case PutMessage(m) =>
      var o := Offload(cfg, s3, t, m.content, us.0);
      (if o.ref.Some? then PutMessage(m.(content := o.inline, contentRef := o.ref)) else w, o.s3)
    case PutTool(c) =>
      var a := Offload(cfg, s3, t, c.args, us.0);
      var b := Offload(cfg, a.s3, t, c.result, us.1);
      var c1 := if a.ref.Some? then c.(args := a.inline, argsRef := a.ref) else c;
      (PutTool(if b.ref.Some? then c1.(result := b.inline, resultRef := b.ref) else c1), b.s3)
    case PutCache(c) =>
      var o := Offload(cfg, s3, t, Some(c.response), us.0);
      (if o.ref.Some? then PutCache(c.(response := o.ref.value)) else w, o.s3)
    case _ => (w, s3)
  }

  function CloudApply(cfg: Config, c: State, t: Tenant, w: Write, us: (string, string)): State {
    var (stored, s3) := Spilled(cfg, c.s3, t, w, us);
    State(PgApply(c.sh, t, stored), s3)
  }

  // ---------- what a row shows ----------

  /** A payload in its two columns stands for the original text. */
  ghost predicate Stands(cfg: Config, s3: Objects, inline: Option<string>, ref: Option<string>,
                         original: Option<string>) {
    if original.Some? && Spills(cfg, original.value) then
      inline == None && exists key :: ref == Some(Uri(cfg.bucket, key)) && Object(s3, cfg.bucket, key, original.value)
    else inline == original && ref == None
  }

  predicate Object(s3: Objects, bucket: string, key: string, content: string) {
    (bucket, key) in s3 && s3[(bucket, key)] == content
  }

  ghost predicate MessageStands(cfg: Config, s3: Objects, row: Message, m: Message) {
    && m.contentRef == None && row.(content := m.content, contentRef := None) == m
    && Stands(cfg, s3, row.content, row.contentRef, m.content)
  }

  ghost predicate ToolStands(cfg: Config, s3: Objects, row: ToolCall, c: ToolCall) {
    && c.argsRef == None && c.resultRef == None
    && row.(args := c.args, argsRef := None, result := c.result, resultRef := None) == c
    && Stands(cfg, s3, row.args, row.argsRef, c.args) && Stands(cfg, s3, row.result, row.resultRef, c.result)
  }

  ghost predicate CacheStands(cfg: Config, s3: Objects, row: CacheRow, c: CacheRow) {
    && row.(response := c.response) == c
    && if Spills(cfg, c.response) then
         exists key :: row.response == Uri(cfg.bucket, key) && Object(s3, cfg.bucket, key, c.response)
       else row.response == c.response
  }

  ghost predicate MessagesStand(cfg: Config, s3: Objects, v: Tables, db: Tables) {
    v.messages.Keys == db.messages.Keys
    && forall k :: k in db.messages ==> MessageStands(cfg, s3, v.messages[k], db.messages[k])
  }

  ghost predicate ToolsStand(cfg: Config, s3: Objects, v: Tables, db: Tables) {
    v.tools.Keys == db.tools.Keys && forall k :: k in db.tools ==> ToolStands(cfg, s3, v.tools[k], db.tools[k])
  }

  ghost predicate RepliesStand(cfg: Config, s3: Objects, v: Tables, db: Tables) {
    v.cache.Keys == db.cache.Keys && forall k :: k in db.cache ==> CacheStands(cfg, s3, v.cache[k], db.cache[k])
  }

  ghost predicate TablesStand(cfg: Config, s3: Objects, v: Tables, db: Tables) {
    && v.projects == db.projects && v.traces == db.traces && v.spans == db.spans && v.bps == db.bps
    && MessagesStand(cfg, s3, v, db) && ToolsStand(cfg, s3, v, db) && RepliesStand(cfg, s3, v, db)
  }

  /** The tenant's rows stand for those of a private store, row by row. */
  ghost predicate StandsFor(cfg: Config, c: State, t: Tenant, db: Tables) {
    TablesStand(cfg, c.s3, View(c.sh, t), db)
  }

  /** A payload reads back as the original, and its reference always resolves. */
  lemma PayloadReads(cfg: Config, s3: Objects, inline: Option<string>, ref: Option<string>, original: Option<string>)
    requires '/' !in cfg.bucket && Stands(cfg, s3, inline, ref, original)
    ensures Inlined(s3, inline, ref) == original
    ensures ref.Some? ==> SCHEME <= ref.value && Get(s3, ref.value).Some?
  {
    if original.Some? && Spills(cfg, original.value) {
      var key :| ref == Some(Uri(cfg.bucket, key)) && Object(s3, cfg.bucket, key, original.value);
      UriRoundTrip(cfg.bucket, key);
    }
  }

  /** Everything in object storage was too long to stay in its row. */
  ghost predicate OnlySpilled(cfg: Config, s3: Objects) {
    forall k :: k in s3 ==> Spills(cfg, s3[k])
  }

  /** A cached response reads back as written exactly when it was moved out or
      does not itself look like a reference. */
  lemma CachedReads(cfg: Config, s3: Objects, row: CacheRow, c: CacheRow)
    requires '/' !in cfg.bucket && OnlySpilled(cfg, s3) && CacheStands(cfg, s3, row, c)
    ensures CachedText(s3, row.response) == Some(c.response) <==> Spills(cfg, c.response) || !(SCHEME <= c.response)
  {
    if Spills(cfg, c.response) {
      var key :| row.response == Uri(cfg.bucket, key) && Object(s3, cfg.bucket, key, c.response);
      UriRoundTrip(cfg.bucket, key);
    }
  }

  // ---------- writes keep it so ----------

  /** The keys of the next objects are new: a UUID is never drawn twice. */
  ghost predicate Fresh(cfg: Config, s3: Objects, t: Tenant, us: (string, string)) {
    && us.0 != us.1
    && (cfg.bucket, ObjectKey(cfg, t, us.0)) !in s3 && (cfg.bucket, ObjectKey(cfg, t, us.1)) !in s3
  }

  lemma KeysApart(cfg: Config, t: Tenant, u: string, v: string)
    requires u != v
    ensures ObjectKey(cfg, t, u) != ObjectKey(cfg, t, v)
  {
    var base := cfg.prefix + t + "/";
    assert ObjectKey(cfg, t, u) == base + u && ObjectKey(cfg, t, v) == base + v;
    assert (base + u)[|base|..] == u && (base + v)[|base|..] == v;
  }

  /** Objects are only ever added. */
  ghost predicate Extends(s3: Objects, more: Objects) {
    forall k :: k in s3 ==> k in more && more[k] == s3[k]
  }

  lemma StandsLonger(cfg: Config, s3: Objects, more: Objects, inline: Option<string>, ref: Option<string>,
                     original: Option<string>)
    requires Extends(s3, more) && Stands(cfg, s3, inline, ref, original)
    ensures Stands(cfg, more, inline, ref, original)
  {
    if original.Some? && Spills(cfg, original.value) {
      var key :| ref == Some(Uri(cfg.bucket, key)) && Object(s3, cfg.bucket, key, original.value);
      assert Object(more, cfg.bucket, key, original.value);
    }
  }

  lemma CacheStandsLonger(cfg: Config, s3: Objects, more: Objects, row: CacheRow, c: CacheRow)
    requires Extends(s3, more) && CacheStands(cfg, s3, row, c)
    ensures CacheStands(cfg, more, row, c)
  {
    if Spills(cfg, c.response) {
      var key :| row.response == Uri(cfg.bucket, key) && Object(s3, cfg.bucket, key, c.response);
      assert Object(more, cfg.bucket, key, c.response);
    }
  }

  lemma MoreObjects(cfg: Config, c: State, more: Objects, t: Tenant, db: Tables)
    requires StandsFor(cfg, c, t, db) && Extends(c.s3, more)
    ensures StandsFor(cfg, c.(s3 := more), t, db)
  {
    hide Stands, CacheStands, View;
    var v := View(c.sh, t);
    forall k | k in db.messages ensures MessageStands(cfg, more, v.messages[k], db.messages[k]) {
      var row, m := v.messages[k], db.messages[k];
      assert MessageStands(cfg, c.s3, row, m);
      StandsLonger(cfg, c.s3, more, row.content, row.contentRef, m.content);
    }
    forall k | k in db.tools ensures ToolStands(cfg, more, v.tools[k], db.tools[k]) {
      var row, m := v.tools[k], db.tools[k];
      assert ToolStands(cfg, c.s3, row, m);
      StandsLonger(cfg, c.s3, more, row.args, row.argsRef, m.args);
      StandsLonger(cfg, c.s3, more, row.result, row.resultRef, m.result);
    }
    forall k | k in db.cache ensures CacheStands(cfg, more, v.cache[k], db.cache[k]) {
      CacheStandsLonger(cfg, c.s3, more, v.cache[k], db.cache[k]);
    }
  }

  lemma OffloadStands(cfg: Config, s3: Objects, t: Tenant, content: Option<string>, uuid: string)
    requires (cfg.bucket, ObjectKey(cfg, t, uuid)) !in s3
    ensures var o := Offload(cfg, s3, t, content, uuid);
            && Stands(cfg, o.s3, o.inline, o.ref, content) && Extends(s3, o.s3)
            && (OnlySpilled(cfg, s3) ==> OnlySpilled(cfg, o.s3))
            && (forall k :: k in o.s3 ==> k in s3 || k == (cfg.bucket, ObjectKey(cfg, t, uuid)))
  {
    if content.Some? && Spills(cfg, content.value) {
      assert Object(Offload(cfg, s3, t, content, uuid).s3, cfg.bucket, ObjectKey(cfg, t, uuid), content.value);
    }
  }

  /** What the wrapper writes stands for what it was given. */
  ghost predicate WriteStands(cfg: Config, s3: Objects, stored: Write, w: Write) {
    match w
    case PutMessage(m) => stored.PutMessage? && MessageStands(cfg, s3, stored.message, m)
    case PutTool(c) => stored.PutTool? && ToolStands(cfg, s3, stored.tool, c)
    case PutCache(c) => stored.PutCache? && CacheStands(cfg, s3, stored.row, c)
    case _ => stored == w
  }

  lemma SpilledStands(cfg: Config, s3: Objects, t: Tenant, w: Write, us: (string, string))
    requires Plain(w) && Fresh(cfg, s3, t, us)
    ensures var (stored, more) := Spilled(cfg, s3, t, w, us);
            && WriteStands(cfg, more, stored, w) && Extends(s3, more)
            && (OnlySpilled(cfg, s3) ==> OnlySpilled(cfg, more))
  {
    hide Stands, Extends, OnlySpilled, ObjectKey, Uri;
    match w
    case PutMessage(m) => OffloadStands(cfg, s3, t, m.content, us.0);
    case PutTool(c) => SpilledTool(cfg, s3, t, c, us);
    case PutCache(c) =>
      OffloadStands(cfg, s3, t, Some(c.response), us.0);
      OffloadedCache(cfg, s3, t, c, us.0);
    case _ => assert Extends(s3, s3) by { ExtendsSelf(s3); }
  }

  lemma ExtendsSelf(s3: Objects)
    ensures Extends(s3, s3)
  {}

  lemma OffloadedCache(cfg: Config, s3: Objects, t: Tenant, c: CacheRow, uuid: string)
    ensures var o := Offload(cfg, s3, t, Some(c.response), uuid);
            CacheStands(cfg, o.s3, if o.ref.Some? then c.(response := o.ref.value) else c, c)
  {
    if Spills(cfg, c.response) {
      assert Object(Offload(cfg, s3, t, Some(c.response), uuid).s3, cfg.bucket, ObjectKey(cfg, t, uuid), c.response);
    }
  }

  lemma SpilledTool(cfg: Config, s3: Objects, t: Tenant, c: ToolCall, us: (string, string))
    requires Plain(PutTool(c)) && Fresh(cfg, s3, t, us)
    ensures var (stored, more) := Spilled(cfg, s3, t, PutTool(c), us);
            && stored.PutTool? && ToolStands(cfg, more, stored.tool, c) && Extends(s3, more)
            && (OnlySpilled(cfg, s3) ==> OnlySpilled(cfg, more))
  {
    KeysApart(cfg, t, us.0, us.1);
    OffloadStands(cfg, s3, t, c.args, us.0);
    var a := Offload(cfg, s3, t, c.args, us.0);
    OffloadStands(cfg, a.s3, t, c.result, us.1);
    var b := Offload(cfg, a.s3, t, c.result, us.1);
    StandsLonger(cfg, a.s3, b.s3, a.inline, a.ref, c.args);
    assert Extends(s3, b.s3);
    hide Stands, Extends, OnlySpilled, ObjectKey, Uri;
  }

  lemma SameKeys(cfg: Config, s3: Objects, stored: Write, w: Write)
    requires WriteStands(cfg, s3, stored, w)
    ensures match w
            case PutMessage(m) => stored.PutMessage? && stored.message.id == m.id
            case PutTool(c) => stored.PutTool? && stored.tool.span == c.span
            case PutCache(c) => stored.PutCache? && stored.row.hash == c.hash
            case _ => stored == w
  {
    hide Stands;
  }

  lemma MessagesStep(cfg: Config, s3: Objects, v: Tables, db: Tables, stored: Write, w: Write)
    requires MessagesStand(cfg, s3, v, db) && WriteStands(cfg, s3, stored, w)
    ensures MessagesStand(cfg, s3, Apply(v, stored), Apply(db, w))
  {
    SameKeys(cfg, s3, stored, w);
    hide MessageStands, ToolStands, CacheStands, RecordHit;
  }

  lemma ToolsStep(cfg: Config, s3: Objects, v: Tables, db: Tables, stored: Write, w: Write)
    requires ToolsStand(cfg, s3, v, db) && WriteStands(cfg, s3, stored, w)
    ensures ToolsStand(cfg, s3, Apply(v, stored), Apply(db, w))
  {
    SameKeys(cfg, s3, stored, w);
    hide MessageStands, ToolStands, CacheStands, RecordHit;
  }

  lemma RepliesStep(cfg: Config, s3: Objects, v: Tables, db: Tables, stored: Write, w: Write)
    requires RepliesStand(cfg, s3, v, db) && WriteStands(cfg, s3, stored, w)
    ensures RepliesStand(cfg, s3, Apply(v, stored), Apply(db, w))
  {
    SameKeys(cfg, s3, stored, w);
    hide MessageStands, ToolStands, CacheStands, RecordHit;
  }

  lemma StandingWrite(cfg: Config, s3: Objects, v: Tables, db: Tables, stored: Write, w: Write)
    requires TablesStand(cfg, s3, v, db) && WriteStands(cfg, s3, stored, w)
    ensures TablesStand(cfg, s3, Apply(v, stored), Apply(db, w))
  {
    MessagesStep(cfg, s3, v, db, stored, w);
    ToolsStep(cfg, s3, v, db, stored, w);
    RepliesStep(cfg, s3, v, db, stored, w);
    hide MessageStands, ToolStands, CacheStands, MessagesStand, ToolsStand, RepliesStand, RecordHit;
  }

  /** A write through the wrapper: the tenant's rows stand for those of its
      private store after the same write, and everyone else's are untouched. */
  lemma WriteKeepsStanding(cfg: Config, c: State, t: Tenant, w: Write, us: (string, string), u: Tenant, db: Tables)
    requires StandsFor(cfg, c, u, db) && OnlySpilled(cfg, c.s3) && Plain(w) && Fresh(cfg, c.s3, t, us)
    ensures var after := CloudApply(cfg, c, t, w, us);
            StandsFor(cfg, after, u, if u == t then Apply(db, w) else db) && OnlySpilled(cfg, after.s3)
  {
    hide TablesStand, WriteStands, PgApply, View, Extends, OnlySpilled, Apply;
    var (stored, more) := Spilled(cfg, c.s3, t, w, us);
    SpilledStands(cfg, c.s3, t, w, us);
    MoreObjects(cfg, c, more, u, db);
    if u == t {
      StandingWrite(cfg, more, View(c.sh, t), db, stored, w);
    }
    WritesStayInside(c.sh, t, stored, u);
  }

  // ---------- many tenants ----------

  datatype Op = Op(tenant: Tenant, write: Write, uuids: (string, string))

  function OwnWrites(ops: seq<Op>, t: Tenant): seq<Write> {
    if |ops| == 0 then []
    else (if ops[0].tenant == t then [ops[0].write] else []) + OwnWrites(ops[1..], t)
  }

  ghost predicate Runnable(cfg: Config, c: State, ops: seq<Op>)
    decreases |ops|
  {
    |ops| == 0 ||
    (Plain(ops[0].write) && Fresh(cfg, c.s3, ops[0].tenant, ops[0].uuids)
     && Runnable(cfg, CloudApply(cfg, c, ops[0].tenant, ops[0].write, ops[0].uuids), ops[1..]))
  }

  function CloudRun(cfg: Config, c: State, ops: seq<Op>): State
    decreases |ops|
  {
    if |ops| == 0 then c
    else CloudRun(cfg, CloudApply(cfg, c, ops[0].tenant, ops[0].write, ops[0].uuids), ops[1..])
  }

  lemma {:induction false} RunStands(cfg: Config, c: State, ops: seq<Op>, t: Tenant, db: Tables)
    requires StandsFor(cfg, c, t, db) && OnlySpilled(cfg, c.s3) && Runnable(cfg, c, ops)
    ensures StandsFor(cfg, CloudRun(cfg, c, ops), t, IngestLaws.ApplyAll(db, OwnWrites(ops, t)))
    ensures OnlySpilled(cfg, CloudRun(cfg, c, ops).s3)
    decreases |ops|
  {
    hide StandsFor, OnlySpilled, CloudApply, Apply, Fresh, Plain;
    if |ops| > 0 {
      var op := ops[0];
      WriteKeepsStanding(cfg, c, op.tenant, op.write, op.uuids, t, db);
      var mine := if op.tenant == t then Apply(db, op.write) else db;
      RunStands(cfg, CloudApply(cfg, c, op.tenant, op.write, op.uuids), ops[1..], t, mine);
      var ws, rest := OwnWrites(ops, t), OwnWrites(ops[1..], t);
      if op.tenant == t {
        assert ws[0] == op.write && ws[1..] == rest;
      } else {
        assert ws == rest;
      }
    }
  }

  lemma EmptyStands(cfg: Config, t: Tenant)
    ensures StandsFor(cfg, State(NO_ROWS, map[]), t, EMPTY) && OnlySpilled(cfg, map[])
  {}

  /** Any interleaving of writes by any number of tenants: each tenant's rows
      stand for those of a private store that was given its writes alone, as
      long as the private store would take them. */
  lemma TenantsAreAlone(cfg: Config, ops: seq<Op>, t: Tenant)
    requires Runnable(cfg, State(NO_ROWS, map[]), ops) && AllAccepted(OwnWrites(ops, t))
    ensures var c := CloudRun(cfg, State(NO_ROWS, map[]), ops);
            && Run(EMPTY, OwnWrites(ops, t)).ok && StandsFor(cfg, c, t, Run(EMPTY, OwnWrites(ops, t)).db)
            && OnlySpilled(cfg, c.s3)
  {
    hide StandsFor, OnlySpilled, Runnable, CloudRun;
    EmptyStands(cfg, t);
    RunStands(cfg, State(NO_ROWS, map[]), ops, t, EMPTY);
    RunOk(EMPTY, OwnWrites(ops, t));
    HitCounts.RunIsApplyAll(EMPTY, OwnWrites(ops, t));
  }

  /** No column a private store would not take empty is empty. */
  ghost predicate NotNull(db: Tables) {
    && (forall k :: k in db.spans ==> db.spans[k].start.Some?)
    && (forall k :: k in db.cache ==> db.cache[k].model.Some?)
  }

  /** Where the two part: a private store would have rejected the write, and the
      shared tables take it. */
  lemma RejectedWriteShows(sh: Shared, t: Tenant, w: Write)
    requires NotNull(View(sh, t))
    ensures Accepts(w) <==> View(PgApply(sh, t, w), t) == Run(View(sh, t), [w]).db
  {
    hide View, PgApply;
    WritesStayInside(sh, t, w, t);
    var v := View(sh, t);
    assert Run(Apply(v, w), [w][1..]).db == Apply(v, w);
    if w.PutSpan? && w.span.start.None? { assert Apply(v, w).spans[w.span.id] == w.span; }
    if w.PutCache? && w.row.model.None? { assert Apply(v, w).cache[w.row.hash] == w.row; }
  }
}
