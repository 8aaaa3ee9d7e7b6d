/** How long the payloads are that stay in the shared tables, and those that are moved out of them. */
module PayloadSizes {
  import opened Spans
  import opened Db
  import opened Cloud

  /** A text that may stay in its column. */
  predicate Short(cfg: Config, text: Option<string>) {
    text.Some? ==> |text.value| <= cfg.threshold
  }

  /** What a table row holds of a payload: with a bucket a short text or a reference
      into it, without one no reference. */
  ghost predicate Sized(cfg: Config, s3: Objects, inline: Option<string>, ref: Option<string>) {
    if cfg.bucket == "" then ref == None
    else Short(cfg, inline) && (ref.Some? ==> inline == None && PointsInto(cfg, s3, ref.value))
  }

  /** The text is a reference to an object of the bucket. */
  ghost predicate PointsInto(cfg: Config, s3: Objects, uri: string) {
    exists key :: uri == "s3://" + cfg.bucket + "/" + key && (cfg.bucket, key) in s3
  }

  ghost predicate MessageSized(cfg: Config, s3: Objects, m: Message) { Sized(cfg, s3, m.content, m.contentRef) }

  ghost predicate ToolSized(cfg: Config, s3: Objects, c: ToolCall) {
    Sized(cfg, s3, c.args, c.argsRef) && Sized(cfg, s3, c.result, c.resultRef)
  }

  ghost predicate CacheSized(cfg: Config, s3: Objects, c: CacheRow) {
    cfg.bucket != "" ==> |c.response| <= cfg.threshold || PointsInto(cfg, s3, c.response)
  }

  /** Only long payloads are moved out, and none without a bucket. */
  ghost predicate ObjectsLong(cfg: Config, s3: Objects) {
    forall k :: k in s3 ==> cfg.bucket != "" && |s3[k]| > cfg.threshold
  }

  ghost predicate TablesSized(cfg: Config, s3: Objects, v: Tables) {
    && (forall k :: k in v.messages ==> MessageSized(cfg, s3, v.messages[k]))
    && (forall k :: k in v.tools ==> ToolSized(cfg, s3, v.tools[k]))
    && (forall k :: k in v.cache ==> CacheSized(cfg, s3, v.cache[k]))
  }

  ghost predicate WriteSized(cfg: Config, s3: Objects, w: Write) {
    match w
    case PutMessage(m) => MessageSized(cfg, s3, m)
    case PutTool(c) => ToolSized(cfg, s3, c)
    case PutCache(c) => CacheSized(cfg, s3, c)
    case _ => true
  }

  /** A payload handed to the wrapper, as it is stored. */
  lemma OffloadSized(cfg: Config, s3: Objects, t: Tenant, content: Option<string>, uuid: string)
    requires ObjectsLong(cfg, s3) && (cfg.bucket, ObjectKey(cfg, t, uuid)) !in s3
    ensures var o := Offload(cfg, s3, t, content, uuid);
            && Sized(cfg, o.s3, o.inline, o.ref) && ObjectsLong(cfg, o.s3) && Extends(s3, o.s3)
            && (o.ref == None ==> o.inline == content && o.s3 == s3)
            && (forall k :: k in o.s3 ==> k in s3 || k == (cfg.bucket, ObjectKey(cfg, t, uuid)))
  {
    var o := Offload(cfg, s3, t, content, uuid);
    if o.ref.Some? {
      var key := ObjectKey(cfg, t, uuid);
      assert o.ref.value == "s3://" + cfg.bucket + "/" + key && (cfg.bucket, key) in o.s3;
    }
  }

  lemma SizedLonger(cfg: Config, s3: Objects, more: Objects, inline: Option<string>, ref: Option<string>)
    requires Sized(cfg, s3, inline, ref) && Extends(s3, more)
    ensures Sized(cfg, more, inline, ref)
  {
    if ref.Some? && cfg.bucket != "" { PointsLonger(cfg, s3, more, ref.value); }
  }

  lemma PointsLonger(cfg: Config, s3: Objects, more: Objects, uri: string)
    requires PointsInto(cfg, s3, uri) && Extends(s3, more)
    ensures PointsInto(cfg, more, uri)
  {
    var key :| uri == "s3://" + cfg.bucket + "/" + key && (cfg.bucket, key) in s3;
    assert (cfg.bucket, key) in more;
  }

  lemma TablesLonger(cfg: Config, s3: Objects, more: Objects, v: Tables)
    requires TablesSized(cfg, s3, v) && Extends(s3, more)
    ensures TablesSized(cfg, more, v)
  {
    hide Sized, Extends, PointsInto;
    forall k | k in v.messages ensures MessageSized(cfg, more, v.messages[k]) {
      assert MessageSized(cfg, s3, v.messages[k]);
      SizedLonger(cfg, s3, more, v.messages[k].content, v.messages[k].contentRef);
    }
    forall k | k in v.tools ensures ToolSized(cfg, more, v.tools[k]) {
      assert ToolSized(cfg, s3, v.tools[k]);
      SizedLonger(cfg, s3, more, v.tools[k].args, v.tools[k].argsRef);
      SizedLonger(cfg, s3, more, v.tools[k].result, v.tools[k].resultRef);
    }
    forall k | k in v.cache ensures CacheSized(cfg, more, v.cache[k]) {
      assert CacheSized(cfg, s3, v.cache[k]);
      if cfg.bucket != "" && |v.cache[k].response| > cfg.threshold { PointsLonger(cfg, s3, more, v.cache[k].response); }
    }
  }

  lemma SpilledSized(cfg: Config, s3: Objects, t: Tenant, w: Write, us: (string, string))
    requires Plain(w) && Fresh(cfg, s3, t, us) && ObjectsLong(cfg, s3)
    ensures var (stored, more) := Spilled(cfg, s3, t, w, us);
            WriteSized(cfg, more, stored) && ObjectsLong(cfg, more) && Extends(s3, more)
  {
    match w
    case PutMessage(m) => OffloadSized(cfg, s3, t, m.content, us.0);
    case PutTool(c) =>
      KeysApart(cfg, t, us.0, us.1);
      OffloadSized(cfg, s3, t, c.args, us.0);
      var a := Offload(cfg, s3, t, c.args, us.0);
      OffloadSized(cfg, a.s3, t, c.result, us.1);
      var b := Offload(cfg, a.s3, t, c.result, us.1);
      SizedLonger(cfg, a.s3, b.s3, a.inline, a.ref);
      hide Sized, ObjectKey, Uri, Offload;
    case PutCache(c) => OffloadSized(cfg, s3, t, Some(c.response), us.0);
    case _ =>
  }

  lemma ApplySized(cfg: Config, s3: Objects, v: Tables, w: Write)
    requires TablesSized(cfg, s3, v) && WriteSized(cfg, s3, w)
    ensures TablesSized(cfg, s3, Apply(v, w))
  {
    hide MessageSized, ToolSized, CacheSized, RecordHit;
  }

  lemma StepSized(cfg: Config, c: State, t: Tenant, w: Write, us: (string, string), u: Tenant)
    requires TablesSized(cfg, c.s3, View(c.sh, u)) && ObjectsLong(cfg, c.s3) && Plain(w) && Fresh(cfg, c.s3, t, us)
    ensures var after := CloudApply(cfg, c, t, w, us);
            TablesSized(cfg, after.s3, View(after.sh, u)) && ObjectsLong(cfg, after.s3)
  {
    hide TablesSized, WriteSized, PgApply, View, Extends, ObjectsLong, Apply, Fresh;
    var (stored, more) := Spilled(cfg, c.s3, t, w, us);
    SpilledSized(cfg, c.s3, t, w, us);
    TablesLonger(cfg, c.s3, more, View(c.sh, u));
    if u == t { ApplySized(cfg, more, View(c.sh, u), stored); }
    WritesStayInside(c.sh, t, stored, u);
  }

  lemma {:induction false} RunSized(cfg: Config, c: State, ops: seq<Op>, t: Tenant)
    requires TablesSized(cfg, c.s3, View(c.sh, t)) && ObjectsLong(cfg, c.s3) && Runnable(cfg, c, ops)
    ensures var after := CloudRun(cfg, c, ops);
            TablesSized(cfg, after.s3, View(after.sh, t)) && ObjectsLong(cfg, after.s3)
    decreases |ops|
  {
    hide TablesSized, ObjectsLong, CloudApply, Fresh, Plain, View;
    if |ops| > 0 {
      StepSized(cfg, c, ops[0].tenant, ops[0].write, ops[0].uuids, t);
      RunSized(cfg, CloudApply(cfg, c, ops[0].tenant, ops[0].write, ops[0].uuids), ops[1..], t);
    }
  }

  /** After any interleaving of writes, in every tenant's view: with a bucket each
      inline message, tool argument and tool result is no longer than the
      threshold, each cached response is that or a reference, and every object is
      longer; without a bucket there are no objects and no references. */
  lemma HistorySizes(cfg: Config, ops: seq<Op>, t: Tenant)
    requires Runnable(cfg, State(NO_ROWS, map[]), ops)
    ensures var c := CloudRun(cfg, State(NO_ROWS, map[]), ops);
            var v := View(c.sh, t);
            && (forall k :: k in c.s3 ==> |c.s3[k]| > cfg.threshold)
            && (cfg.bucket == "" ==> c.s3 == map[])
            && (forall k :: k in v.messages ==> MessageSized(cfg, c.s3, v.messages[k]))
            && (forall k :: k in v.tools ==> ToolSized(cfg, c.s3, v.tools[k]))
            && (forall k :: k in v.cache ==> CacheSized(cfg, c.s3, v.cache[k]))
  {
    hide CloudRun, Runnable, MessageSized, ToolSized, CacheSized;
    RunSized(cfg, State(NO_ROWS, map[]), ops, t);
  }

  /** One payload handed to the wrapper stays exactly if offloading is off or it is
      no longer than the threshold; else exactly one object holds it. */
  lemma OffloadMeans(cfg: Config, s3: Objects, t: Tenant, text: string, uuid: string)
    ensures var o := Offload(cfg, s3, t, Some(text), uuid);
            if cfg.bucket == "" || |text| <= cfg.threshold then o == Offloaded(Some(text), None, s3)
            else
              var key := cfg.prefix + t + "/" + uuid;
              o == Offloaded(None, Some("s3://" + cfg.bucket + "/" + key), s3[(cfg.bucket, key) := text])
  {}

  // ---------- where the objects are, and what is read back ----------

  /** The key lies in the folder of a tenant, under an id drawn for one of its writes. */
  ghost predicate InFolder(cfg: Config, ops: seq<Op>, key: string) {
    exists i :: 0 <= i < |ops| && DrawnFor(cfg, ops[i], key)
  }

  predicate DrawnFor(cfg: Config, op: Op, key: string) {
    key == cfg.prefix + op.tenant + "/" + op.uuids.0 || key == cfg.prefix + op.tenant + "/" + op.uuids.1
  }

  lemma SpilledWhere(cfg: Config, s3: Objects, op: Op, k: (string, string))
    requires k in Spilled(cfg, s3, op.tenant, op.write, op.uuids).1
    ensures k in s3 || (k.0 == cfg.bucket && DrawnFor(cfg, op, k.1))
  {
    hide Uri;
  }

  lemma {:induction false} ObjectsWhere(cfg: Config, c: State, ops: seq<Op>, k: (string, string))
    requires k in CloudRun(cfg, c, ops).s3
    ensures k in c.s3 || (k.0 == cfg.bucket && InFolder(cfg, ops, k.1))
    decreases |ops|
  {
    hide Spilled, PgApply, DrawnFor;
    if |ops| > 0 {
      var op := ops[0];
      var next := CloudApply(cfg, c, op.tenant, op.write, op.uuids);
      ObjectsWhere(cfg, next, ops[1..], k);
      if k in next.s3 {
        SpilledWhere(cfg, c.s3, op, k);
      } else {
        var i :| 0 <= i < |ops[1..]| && DrawnFor(cfg, ops[1..][i], k.1);
        assert DrawnFor(cfg, ops[i + 1], k.1);
      }
    }
  }

  /** Every object that any history leaves is in the configured bucket, in the folder
      of a tenant that wrote. */
  lemma ObjectsInFolders(cfg: Config, ops: seq<Op>, k: (string, string))
    requires k in CloudRun(cfg, State(NO_ROWS, map[]), ops).s3
    ensures k.0 == cfg.bucket && InFolder(cfg, ops, k.1)
  {
    ObjectsWhere(cfg, State(NO_ROWS, map[]), ops, k);
  }

  /** What is read of a row: the inline text, if there is one; else the object that
      the reference names; else nothing. */
  lemma ReadBack(s3: Objects, inline: Option<string>, ref: Option<string>, text: string)
    ensures Inlined(s3, inline, ref) == Some(text) <==>
              inline == Some(text)
              || (inline == None && ref.Some? && exists bucket, key :: Names(ref.value, bucket, key)
                                                                       && Object(s3, bucket, key, text))
  {
    if inline == None && ref.Some? {
      if "s3://" <= ref.value {
        var (bucket, key) := ParseUri(ref.value);
        forall b, k ensures (b, k) == (bucket, key) <==> Names(ref.value, b, k) { UriNames(ref.value, b, k); }
        hide Names, ParseUri;
      } else {
        forall b, k ensures !Names(ref.value, b, k) { NoReference(ref.value, b, k); }
      }
    }
  }

  lemma NoReference(uri: string, bucket: string, key: string)
    requires !("s3://" <= uri)
    ensures !Names(uri, bucket, key)
  {}
}
