/** What a branch pins for a model call that was never answered: its last assistant prompt. */
module Fallback {
  import opened Spans
  import opened Capture
  import opened Db
  import opened Ingest
  import opened IngestLaws
  import opened Recording
  import opened Replay
  import Deliveries
  import IngestRun

  // ---------- the messages an ingested span leaves ----------

  ghost predicate Stored(db: Tables, id: Ulid, m: Message) {
    id in db.messages && db.messages[id] == m
  }

  /** The store holds these messages of the span, under consecutive ids, and no
      others of it. */
  ghost predicate HoldsMessages(db: Tables, span: SpanId, ms: seq<Message>, next: Ulid) {
    && (forall k :: 0 <= k < |ms| ==> Stored(db, next + k, ms[k]))
    && (forall id :: id in db.messages && db.messages[id].span == span ==> next <= id < next + |ms|)
  }

  ghost predicate Numbered(ms: seq<Message>, span: SpanId, next: Ulid) {
    forall k :: 0 <= k < |ms| ==> ms[k].id == next + k && ms[k].span == span
  }

  ghost predicate NoneOf(db: Tables, span: SpanId) {
    forall id :: id in db.messages ==> db.messages[id].span != span
  }

  lemma {:induction false} MessagesPut(db: Tables, ms: seq<Message>, n: nat, span: SpanId, next: Ulid)
    requires n <= |ms| && Numbered(ms, span, next) && HoldsMessages(db, span, ms[..n], next)
    ensures HoldsMessages(ApplyAll(db, MessageWrites(ms[n..])), span, ms, next)
    decreases |ms| - n
  {
    if n == |ms| {
      assert ms[n..] == [] && ms[..n] == ms;
    } else {
      assert ms[n..][0] == ms[n] && ms[n..][1..] == ms[n + 1..] && ms[..n + 1] == ms[..n] + [ms[n]];
      MessagePut(db, ms, n, span, next);
      hide HoldsMessages, Numbered, Apply;
      MessagesPut(Apply(db, PutMessage(ms[n])), ms, n + 1, span, next);
    }
  }

  lemma MessagePut(db: Tables, ms: seq<Message>, n: nat, span: SpanId, next: Ulid)
    requires n < |ms| && Numbered(ms, span, next) && HoldsMessages(db, span, ms[..n], next)
    ensures HoldsMessages(Apply(db, PutMessage(ms[n])), span, ms[..n + 1], next)
  {
    var after := Apply(db, PutMessage(ms[n]));
    var said := ms[..n + 1];
    forall k | 0 <= k < |said| ensures Stored(after, next + k, said[k]) {
      if k < n { assert Stored(db, next + k, ms[..n][k]); }
    }
  }

  lemma {:induction false} MessagesUntouched(db: Tables, ws: seq<Write>)
    requires forall w :: w in ws ==> !w.PutMessage?
    ensures ApplyAll(db, ws).messages == db.messages
    decreases |ws|
  {
    hide Apply;
    if |ws| > 0 {
      assert ws[0] in ws;
      OtherWrite(db, ws[0]);
      MessagesUntouched(Apply(db, ws[0]), ws[1..]);
    }
  }

  lemma OtherWrite(db: Tables, w: Write)
    requires !w.PutMessage?
    ensures Apply(db, w).messages == db.messages
  {}

  lemma {:induction false} CacheUntouched(db: Tables, ws: seq<Write>)
    requires forall w :: w in ws ==> !w.PutCache?
    ensures ApplyAll(db, ws).cache == db.cache
    decreases |ws|
  {
    hide Apply;
    if |ws| > 0 {
      assert ws[0] in ws;
      OtherCacheWrite(db, ws[0]);
      CacheUntouched(Apply(db, ws[0]), ws[1..]);
    }
  }

  lemma OtherCacheWrite(db: Tables, w: Write)
    requires !w.PutCache?
    ensures Apply(db, w).cache == db.cache
  {}

  /** Ingesting a span without a cached response leaves exactly its messages. */
  lemma SpanLeaves(db: Tables, env: Env, sp: OtelSpan, next: Ulid)
    requires NoneOf(db, sp.id) && Numbered(MessagesOf(sp.attrs, sp.id, next), sp.id, next)
    requires CacheOf(env.host, sp, env.now) == None
    ensures var after := ApplyAll(db, SpanWrites(env, sp, next));
            HoldsMessages(after, sp.id, MessagesOf(sp.attrs, sp.id, next), next) && after.cache == db.cache
  {
    hide MapSpan, MessagesOf, ToolOf, CacheOf, HitWrites, MessageWrites, ApplyAll, NoneOf, Numbered;
    var row, ms := [PutSpan(MapSpan(env.host, sp))], MessagesOf(sp.attrs, sp.id, next);
    var said, rest := MessageWrites(ms), ToolWrites(env, sp) + CacheWrites(env, sp) + HitWrites(env, env.bps, sp);
    MessageWritesAre(ms);
    HitWritesAre(env, env.bps, sp);
    assert SpanWrites(env, sp, next) == row + said + rest;
    var db1 := ApplyAll(db, row);
    Deliveries.ApplyJoin(db, row + said, rest);
    Deliveries.ApplyJoin(db, row, said);
    MessagesUntouched(db, row);
    NothingYet(db1, sp.id, ms, next, db);
    MessagesPut(db1, ms, 0, sp.id, next);
    assert ms[0..] == ms;
    MessagesUntouched(ApplyAll(db1, said), rest);
    CacheUntouched(db, row + said + rest);
  }

  lemma NothingYet(db1: Tables, span: SpanId, ms: seq<Message>, next: Ulid, db: Tables)
    requires NoneOf(db, span) && db1.messages == db.messages
    ensures HoldsMessages(db1, span, ms[..0], next)
  {}

  // ---------- the last of them ----------

  /** The prompt with the greatest index among those the assistant said. */
  predicate LastPrompt(ms: seq<(string, string)>, i: nat) {
    i < |ms| && ms[i].0 == "assistant" && forall j :: i < j < |ms| ==> ms[j].0 != "assistant"
  }

  predicate NoPrompt(ms: seq<(string, string)>) {
    forall j :: 0 <= j < |ms| ==> ms[j].0 != "assistant"
  }

  /** The messages of the prompts, numbered through. */
  ghost predicate ArePrompts(ms: seq<Message>, prompts: seq<(string, string)>, span: SpanId, next: Ulid) {
    |ms| == |prompts|
    && forall k :: 0 <= k < |ms| ==>
         && ms[k].id == next + k && ms[k].span == span && ms[k].at == k && ms[k].content == Some(prompts[k].1)
         && ms[k].role == if prompts[k].0 == "" then "user" else prompts[k].0
  }

  lemma LastIsPinned(db: Tables, row: Span, prompts: seq<(string, string)>, ms: seq<Message>, next: Ulid,
                     r: Option<string>)
    requires HoldsMessages(db, row.id, ms, next) && ArePrompts(ms, prompts, row.id, next)
    requires row.promptHash.Some? && row.promptHash.value !in db.cache && LlmResponse(db, row, r)
    ensures forall i: nat :: LastPrompt(prompts, i) ==> r == Some(prompts[i].1)
    ensures NoPrompt(prompts) ==> r == None
  {
    if id: Ulid :| IsLastAssistant(db, row.id, id) && r == Some(ContentOr(db.messages[id].content)) {
      var k: nat := id - next;
      assert Stored(db, next + k, ms[k]);
      assert ms[k].role == "assistant";
      assert prompts[k].0 == "assistant";
      forall i: nat | LastPrompt(prompts, i) ensures i == k {
        assert Stored(db, next + i, ms[i]);
        assert db.messages[next + i].at == i && db.messages[id].at == k;
      }
    } else {
      forall i: nat | LastPrompt(prompts, i) ensures false {
        AssistantThere(db, row.id, prompts, ms, next, i);
      }
    }
  }

  lemma AssistantThere(db: Tables, span: SpanId, prompts: seq<(string, string)>, ms: seq<Message>, next: Ulid, i: nat)
    requires HoldsMessages(db, span, ms, next) && ArePrompts(ms, prompts, span, next)
    requires i < |ms| && prompts[i].0 == "assistant"
    ensures exists id :: id in db.messages && db.messages[id].span == span && db.messages[id].role == "assistant"
  {
    assert Stored(db, next + i, ms[i]);
  }

  lemma PromptsStored(t: TraceId, model: string, c: LlmCall, at: Stamp, next: Ulid)
    requires c.completion.None?
    ensures ArePrompts(MessagesOf(LlmSpan(t, model, c, at).attrs, at.id, next), c.messages, at.id, next)
  {
    ConversationRoundTrip(t, model, c, at, next);
    hide LlmSpan, MessagesOf;
  }

  lemma PromptsNumbered(ms: seq<Message>, prompts: seq<(string, string)>, span: SpanId, next: Ulid)
    requires ArePrompts(ms, prompts, span, next)
    ensures Numbered(ms, span, next)
  {}

  lemma TurnPins(db: Tables, row: Span, prompts: seq<(string, string)>, ms: seq<Message>, next: Ulid,
                 before: Manifest, after: Manifest)
    requires HoldsMessages(db, row.id, ms, next) && ArePrompts(ms, prompts, row.id, next)
    requires IsPinnedLlm(row) && row.promptHash.value !in db.cache && Turn(db, row, before, after)
    ensures forall i: nat :: LastPrompt(prompts, i) ==>
              after.llm == before.llm[row.promptHash.value := prompts[i].1]
    ensures NoPrompt(prompts) ==> after.llm == before.llm
  {
    hide LlmResponse, ArePrompts, HoldsMessages, NoPrompt, LastPrompt;
    var r :| LlmResponse(db, row, r)
             && after.llm == if r.Some? then before.llm[row.promptHash.value := r.value] else before.llm;
    LastIsPinned(db, row, prompts, ms, next, r);
  }

  lemma UnansweredRow(env: Env, t: TraceId, model: string, c: LlmCall, at: Stamp)
    requires c.completion.None? && c.hash.Some? && c.hash.value != ""
    ensures var sp := LlmSpan(t, model, c, at);
            var row := MapSpan(env.host, sp);
            && sp.id == at.id && row.id == at.id && row.promptHash == c.hash && IsPinnedLlm(row)
            && CacheOf(env.host, sp, env.now) == None
  {
    var sp := LlmSpan(t, model, c, at);
    assert sp.id == at.id;
    LlmCallRoundTrip(env.host, t, model, c, at);
    CacheRoundTrip(env.host, t, model, c, at, env.now);
    IngestRun.MapSpanId(env.host, sp);
    hide LlmSpan, MapSpan, CacheOf;
  }

  /** One turn of the manifest loop over this span, just ingested. */
  ghost predicate PinsNext(db: Tables, env: Env, sp: OtelSpan, next: Ulid, before: Manifest, after: Manifest) {
    Turn(ApplyAll(db, SpanWrites(env, sp, next)), MapSpan(env.host, sp), before, after)
  }

  /** A model call with a prompt hash that is not cached was never answered; once
      its span is ingested, one turn of the manifest loop pins the text of the
      prompt with the greatest index whose role is assistant, and nothing if there
      is no such prompt. */
  lemma UnansweredIsPinned(db: Tables, env: Env, t: TraceId, model: string, c: LlmCall, at: Stamp, next: Ulid,
                           before: Manifest, after: Manifest)
    requires c.completion.None? && c.hash.Some? && c.hash.value != "" && c.hash.value !in db.cache
    requires forall id :: id in db.messages ==> db.messages[id].span != at.id
    requires PinsNext(db, env, LlmSpan(t, model, c, at), next, before, after)
    ensures forall i: nat :: LastPrompt(c.messages, i) ==> after.llm == before.llm[c.hash.value := c.messages[i].1]
    ensures NoPrompt(c.messages) ==> after.llm == before.llm
  {
    var sp := LlmSpan(t, model, c, at);
    UnansweredRow(env, t, model, c, at);
    PromptsStored(t, model, c, at, next);
    hide LlmSpan, MapSpan, MessagesOf, SpanWrites, ApplyAll, CacheOf, LlmResponse, ArePrompts, HoldsMessages, Numbered;
    var ms := MessagesOf(sp.attrs, at.id, next);
    PromptsNumbered(ms, c.messages, at.id, next);
    SpanLeaves(db, env, sp, next);
    TurnPins(ApplyAll(db, SpanWrites(env, sp, next)), MapSpan(env.host, sp), c.messages, ms, next, before, after);
  }

  /** On any store: with no cached response the turn pins what the assistant said at
      the greatest place in the conversation, and the empty text if that message has
      no content. */
  lemma LastMessagePins(db: Tables, row: Span, id: Ulid, before: Manifest, after: Manifest)
    requires row.kind == "llm_call" && row.promptHash.Some? && row.promptHash.value != ""
    requires row.promptHash.value !in db.cache && Turn(db, row, before, after)
    requires id in db.messages && db.messages[id].span == row.id && db.messages[id].role == "assistant"
    requires forall k :: k in db.messages && k != id && db.messages[k].span == row.id ==>
               db.messages[k].role != "assistant" || db.messages[k].at < db.messages[id].at
    ensures after.llm == before.llm[row.promptHash.value :=
              match db.messages[id].content case Some(text) => text case None => ""]
  {
    assert IsPinnedLlm(row);
    var r :| LlmResponse(db, row, r)
             && after.llm == if r.Some? then before.llm[row.promptHash.value := r.value] else before.llm;
    var last: Ulid :| IsLastAssistant(db, row.id, last) && r == Some(ContentOr(db.messages[last].content));
  }

  /** Spans that are no model call, and those without a prompt hash, pin no prompt; a
      cached response is pinned whatever the messages say. */
  lemma OnlyPromptsPin(db: Tables, row: Span, before: Manifest, after: Manifest)
    requires Turn(db, row, before, after)
    ensures row.kind != "llm_call" || row.promptHash == None || row.promptHash == Some("") ==> after.llm == before.llm
    ensures row.kind == "llm_call" && row.promptHash.Some? && row.promptHash.value != ""
            && row.promptHash.value in db.cache ==>
              after.llm == before.llm[row.promptHash.value := db.cache[row.promptHash.value].response]
  {}
}
