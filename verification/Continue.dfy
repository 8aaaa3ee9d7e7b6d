/**
 The continue command: from the selected span on to the next one, in preorder,
 that some enabled breakpoint matches.
 */
module Continue {
  import opened Spans
  import opened Breakpoint
  import BoolLiterals
  import Db
  import Dialects
  import Forest
  import Ingest
  import Lexer
  import Nav
  import Recording
  import Replay

  /** The tool a span's name tells of. */
  function ToolName(name: string): Option<string> {
    if "tool:" <= name then Some(name[5..]) else None
  }

  /** What the browser shows a predicate of a stored span. */
  function CtxOf(s: Span): Ctx {
    map["kind" := Str(s.kind), "name" := Str(s.name), "status" := Str(s.status),
        "duration_ms" := Ingest.IntVal(s.duration), "model" := Ingest.StrVal(s.model),
        "provider" := Ingest.StrVal(s.provider), "tokens_in" := Ingest.IntVal(s.tokensIn),
        "tokens_out" := Ingest.IntVal(s.tokensOut), "cost_usd" := Ingest.RealVal(s.cost),
        "error_message" := Ingest.StrVal(s.error), "tool_name" := Ingest.StrVal(ToolName(s.name))]
  }

  /** The predicates of the enabled breakpoints; one that does not parse is
      passed over. */
  function Preds(bps: seq<Db.BpRow>, ch: Lexer.Chars): seq<Expr> {
    if |bps| == 0 then []
    else
      var e := Lexer.ParseSource(Lexer.TypeScript, bps[0].dsl, ch);
      if bps[0].enabled && e.Ok? then [e.value] + Preds(bps[1..], ch) else Preds(bps[1..], ch)
  }

  predicate Matches(preds: seq<Expr>, s: Span) {
    exists k :: 0 <= k < |preds| && Dialects.TsEval(preds[k], CtxOf(s))
  }

  /** Some breakpoint is enabled, parses, and holds of the span. */
  ghost predicate Stops(bps: seq<Db.BpRow>, ch: Lexer.Chars, s: Span) {
    exists k :: 0 <= k < |bps| && bps[k].enabled && Lexer.ParseSource(Lexer.TypeScript, bps[k].dsl, ch).Ok?
                && Dialects.TsEval(Lexer.ParseSource(Lexer.TypeScript, bps[k].dsl, ch).value, CtxOf(s))
  }

  lemma MatchesCons(e: Expr, preds: seq<Expr>, s: Span)
    ensures Matches([e] + preds, s) <==> Dialects.TsEval(e, CtxOf(s)) || Matches(preds, s)
  {
    hide CtxOf;
    var all := [e] + preds;
    if Dialects.TsEval(e, CtxOf(s)) { assert all[0] == e; }
    if k :| 0 <= k < |preds| && Dialects.TsEval(preds[k], CtxOf(s)) { assert all[k + 1] == preds[k]; }
    if k :| 0 <= k < |all| && Dialects.TsEval(all[k], CtxOf(s)) { assert k > 0 ==> all[k] == preds[k - 1]; }
  }

  lemma {:induction false} PredsMatch(bps: seq<Db.BpRow>, ch: Lexer.Chars, s: Span)
    ensures Matches(Preds(bps, ch), s) <==> Stops(bps, ch, s)
  {
    hide CtxOf, Lexer.ParseSource, Dialects.TsEval, Matches;
    if |bps| == 0 {
      assert !Matches([], s) by { NoMatch(s); }
    } else {
      PredsMatch(bps[1..], ch, s);
      var e := Lexer.ParseSource(Lexer.TypeScript, bps[0].dsl, ch);
      if e.Ok? { MatchesCons(e.value, Preds(bps[1..], ch), s); }
      StopsCons(bps, ch, s);
      hide Stops;
    }
  }

  lemma NoMatch(s: Span)
    ensures !Matches([], s)
  {}

  lemma StopsCons(bps: seq<Db.BpRow>, ch: Lexer.Chars, s: Span)
    requires |bps| > 0
    ensures var e := Lexer.ParseSource(Lexer.TypeScript, bps[0].dsl, ch);
            Stops(bps, ch, s) <==>
              (bps[0].enabled && e.Ok? && Dialects.TsEval(e.value, CtxOf(s))) || Stops(bps[1..], ch, s)
  {
    hide CtxOf, Lexer.ParseSource, Dialects.TsEval;
    if Stops(bps[1..], ch, s) {
      var k :| 0 <= k < |bps[1..]| && bps[1..][k].enabled && Lexer.ParseSource(Lexer.TypeScript, bps[1..][k].dsl, ch).Ok?
               && Dialects.TsEval(Lexer.ParseSource(Lexer.TypeScript, bps[1..][k].dsl, ch).value, CtxOf(s));
      assert bps[k + 1] == bps[1..][k];
    }
    if Stops(bps, ch, s) {
      var k :| 0 <= k < |bps| && bps[k].enabled && Lexer.ParseSource(Lexer.TypeScript, bps[k].dsl, ch).Ok?
               && Dialects.TsEval(Lexer.ParseSource(Lexer.TypeScript, bps[k].dsl, ch).value, CtxOf(s));
      assert k > 0 ==> bps[k] == bps[1..][k - 1];
    }
  }

  // ---------- one continue ----------

  /** Where the search starts: after the selected span, or at the first one if
      none is selected or it is not shown. */
  function StartAfter(order: seq<Span>, selected: Option<SpanId>): (k: nat)
    ensures k <= |order|
  {
    match selected
    case None => 0
    case Some(id) => (match Nav.IndexOf(order, id) case None => 0 case Some(i) => i + 1)
  }

  /** The first position from k on where a predicate matches. */
  function NextHit(order: seq<Span>, preds: seq<Expr>, k: nat): (r: nat)
    requires k <= |order|
    ensures k <= r <= |order|
    decreases |order| - k
  {
    if k == |order| || Matches(preds, order[k]) then k else NextHit(order, preds, k + 1)
  }

  /** The selection after a continue. */
  function Continued(order: seq<Span>, preds: seq<Expr>, selected: Option<SpanId>): Option<SpanId> {
    var k := NextHit(order, preds, StartAfter(order, selected));
    if k < |order| then Some(order[k].id)
    else if |order| > 0 then Some(order[|order| - 1].id)
    else selected
  }

  lemma {:induction false} NextHitIs(order: seq<Span>, preds: seq<Expr>, k: nat, n: nat)
    requires k <= n <= |order| && (forall m :: k <= m < n ==> !Matches(preds, order[m]))
    requires n < |order| ==> Matches(preds, order[n])
    ensures NextHit(order, preds, k) == n
    decreases n - k
  {
    hide Matches;
    if k < n { NextHitIs(order, preds, k + 1, n); }
  }

  /** The search starts after the selected span, or at the top if none is selected or
      it is not shown; it ends on the first match, else on the last span. */
  lemma ContinueGoes(order: seq<Span>, preds: seq<Expr>, selected: Option<SpanId>, from: nat, n: nat)
    requires DistinctIds(order) && from <= n <= |order|
    requires if from > 0 then selected == Some(order[from - 1].id)
             else selected == None || forall s :: s in order ==> s.id != selected.value
    requires (forall m :: from <= m < n ==> !Matches(preds, order[m])) && (n < |order| ==> Matches(preds, order[n]))
    ensures Continued(order, preds, selected) ==
              if n < |order| then Some(order[n].id)
              else if |order| > 0 then Some(order[|order| - 1].id) else selected
  {
    hide Matches;
    if from > 0 { Nav.IndexOfDistinct(order, from - 1); }
    NextHitIs(order, preds, from, n);
  }

  /** The state of the workbench that the command works on. */
  class Workbench {
    var spans: seq<Span>
    var breakpoints: seq<Db.BpRow>
    var selected: Option<SpanId>

    constructor (spans: seq<Span>, breakpoints: seq<Db.BpRow>)
      ensures this.spans == spans && this.breakpoints == breakpoints && selected == None
    {
      this.spans, this.breakpoints, selected := spans, breakpoints, None;
    }

    method Continue(ch: Lexer.Chars)
      requires DistinctIds(spans)
      modifies this`selected
      ensures selected == Continued(Forest.Preorder(spans), Preds(breakpoints, ch), old(selected))
    {
      hide CtxOf, Lexer.ParseSource, Forest.Preorder;
      var preds := ParsedPreds(ch);
      var order := Nav.PreorderRun(spans);
      var k := StartAfter(order, selected);
      while k < |order|
        invariant k <= |order| && selected == old(selected)
        invariant NextHit(order, preds, k) == NextHit(order, preds, StartAfter(order, old(selected)))
      {
        if Matches(preds, order[k]) {
          selected := Some(order[k].id);
          return;
        }
        k := k + 1;
      }
      if |order| > 0 { selected := Some(order[|order| - 1].id); }
    }

    method ParsedPreds(ch: Lexer.Chars) returns (preds: seq<Expr>)
      ensures preds == Preds(breakpoints, ch)
    {
      hide Lexer.ParseSource;
      preds := [];
      var n := 0;
      while n < |breakpoints|
        invariant n <= |breakpoints|
        invariant preds + Preds(breakpoints[n..], ch) == Preds(breakpoints, ch)
      {
        assert breakpoints[n..][0] == breakpoints[n] && breakpoints[n..][1..] == breakpoints[n + 1..];
        var e := Lexer.ParseSource(Lexer.TypeScript, breakpoints[n].dsl, ch);
        if breakpoints[n].enabled && e.Ok? {
          var rest := Preds(breakpoints[n + 1..], ch);
          assert (preds + [e.value]) + rest == preds + ([e.value] + rest);
          preds := preds + [e.value];
        }
        n := n + 1;
      }
    }
  }

  // ---------- continuing to the end ----------

  /** The positions from k on that a predicate matches, in order. */
  function HitList(order: seq<Span>, preds: seq<Expr>, k: nat): seq<nat>
    requires k <= |order|
    decreases |order| - k
  {
    if k == |order| then []
    else if Matches(preds, order[k]) then [k] + HitList(order, preds, k + 1)
    else HitList(order, preds, k + 1)
  }

  ghost predicate Ascends(hs: seq<nat>) {
    forall i, j :: 0 <= i < j < |hs| ==> hs[i] < hs[j]
  }

  lemma AscendsCons(k: nat, hs: seq<nat>)
    requires Ascends(hs) && forall i :: 0 <= i < |hs| ==> k < hs[i]
    ensures Ascends([k] + hs)
  {}

  /** They are the matching positions, each once and ascending. */
  lemma {:induction false} HitListExact(order: seq<Span>, preds: seq<Expr>, k: nat)
    requires k <= |order|
    ensures Ascends(HitList(order, preds, k))
    ensures forall n: nat :: n in HitList(order, preds, k) <==> k <= n < |order| && Matches(preds, order[n])
    decreases |order| - k
  {
    assert Ascends([]);
    hide Matches, Ascends;
    if k < |order| {
      HitListExact(order, preds, k + 1);
      var rest := HitList(order, preds, k + 1);
      forall i | 0 <= i < |rest| ensures k < rest[i] {
        assert rest[i] in rest;
      }
      AscendsCons(k, rest);
    }
  }

  lemma {:induction false} NextHitIsFirst(order: seq<Span>, preds: seq<Expr>, k: nat)
    requires k <= |order|
    ensures var hs := HitList(order, preds, k);
            && NextHit(order, preds, k) == (if |hs| == 0 then |order| else hs[0])
            && (|hs| > 0 ==> hs[0] < |order| && HitList(order, preds, hs[0] + 1) == hs[1..])
    decreases |order| - k
  {
    hide Matches;
    if k < |order| && !Matches(preds, order[k]) { NextHitIsFirst(order, preds, k + 1); }
  }

  /** The selection after n continues from none. */
  function AfterContinues(order: seq<Span>, preds: seq<Expr>, n: nat): Option<SpanId> {
    if n == 0 then None else Continued(order, preds, AfterContinues(order, preds, n - 1))
  }

  /** What is still to come after n continues. */
  lemma {:induction false} StillToCome(order: seq<Span>, preds: seq<Expr>, n: nat)
    requires DistinctIds(order) && n <= |HitList(order, preds, 0)|
    ensures HitList(order, preds, StartAfter(order, AfterContinues(order, preds, n))) == HitList(order, preds, 0)[n..]
    ensures n > 0 ==>
              var at := HitList(order, preds, 0)[n - 1];
              at < |order| && AfterContinues(order, preds, n) == Some(order[at].id)
  {
    hide Matches, Nav.IndexOf, HitList, NextHit;
    if n > 0 {
      StillToCome(order, preds, n - 1);
      var k := StartAfter(order, AfterContinues(order, preds, n - 1));
      NextHitIsFirst(order, preds, k);
      var hs := HitList(order, preds, 0);
      var at := hs[n - 1];
      assert hs[n - 1..][0] == at && hs[n - 1..][1..] == hs[n..];
      Nav.IndexOfDistinct(order, at);
    }
  }

  /** Repeated continues from no selection stop at the matching spans, each once
      and in preorder, and then rest on the last span. */
  lemma {:induction false} ContinueVisitsHits(order: seq<Span>, preds: seq<Expr>, n: nat)
    requires DistinctIds(order) && |order| > 0 && n > 0
    ensures var hs := HitList(order, preds, 0);
            && (n <= |hs| ==> hs[n - 1] < |order| && AfterContinues(order, preds, n) == Some(order[hs[n - 1]].id))
            && (n > |hs| ==> AfterContinues(order, preds, n) == Some(order[|order| - 1].id))
  {
    hide Matches, Nav.IndexOf, HitList, NextHit;
    var hs := HitList(order, preds, 0);
    if n <= |hs| {
      StillToCome(order, preds, n);
    } else if n == |hs| + 1 {
      StillToCome(order, preds, |hs|);
      NextHitIsFirst(order, preds, StartAfter(order, AfterContinues(order, preds, n - 1)));
    } else {
      ContinueVisitsHits(order, preds, n - 1);
      Nav.IndexOfDistinct(order, |order| - 1);
      NextHitIsFirst(order, preds, |order|);
      NoneLeft(order, preds);
    }
  }

  lemma NoneLeft(order: seq<Span>, preds: seq<Expr>)
    ensures HitList(order, preds, |order|) == []
  {}

  /** On the spans of a trace: the stops are exactly the visible spans that some
      enabled breakpoint that parses holds of. */
  lemma ContinueStopsExactly(spans: seq<Span>, bps: seq<Db.BpRow>, ch: Lexer.Chars)
    requires DistinctIds(spans)
    ensures var order := Forest.Preorder(spans);
            var hs := HitList(order, Preds(bps, ch), 0);
            && DistinctIds(order)
            && (forall n: nat :: n in hs <==> n < |order| && Stops(bps, ch, order[n]))
            && Ascends(hs)
  {
    hide CtxOf, Lexer.ParseSource, Matches, Stops, Preds, Forest.Preorder, HitList;
    var order := Forest.Preorder(spans);
    Forest.PreorderExact(spans);
    HitListExact(order, Preds(bps, ch), 0);
    forall n: nat | n < |order| ensures Matches(Preds(bps, ch), order[n]) <==> Stops(bps, ch, order[n]) {
      PredsMatch(bps, ch, order[n]);
    }
  }

  // ---------- stops and hits ----------

  /** The tool ingestion knows of for a span. */
  function StoredTool(sp: Ingest.OtelSpan): Option<string> {
    match Ingest.ToolOf(sp) case None => None case Some(c) => Some(c.tool)
  }

  lemma OwnTool(e: Replay.Event)
    ensures var a := Recording.OwnAttrs(e);
            e.action.Tool? || e.action.FailedTool? ==>
              K("gen_ai.tool.name") in a && a[K("gen_ai.tool.name")] == S(e.action.name)
  {}

  lemma ToolStored(t: TraceId, e: Replay.Event, at: Recording.Stamp)
    requires e.action.Tool? || e.action.FailedTool? ==> e.action.name != ""
    ensures StoredTool(Recording.Emit(t, e, at)) ==
              if e.action.Tool? || e.action.FailedTool? then Some(e.action.name) else None
  {
    Recording.OwnSays(e);
    OwnTool(e);
    hide Recording.OwnAttrs, Recording.ExtraAttrs, Recording.RECORDED, Recording.EventName;
  }

  lemma ToolShown(e: Replay.Event)
    ensures ToolName(Recording.EventName(e)) ==
              if e.action.Tool? || e.action.FailedTool? then Some(e.action.name) else None
  {
    var name := Recording.EventName(e);
    if e.action.Tool? || e.action.FailedTool? {
      assert name[..5] == "tool:" && name[5..] == e.action.name;
    } else {
      assert !("tool:" <= name) by {
        if |name| > 0 { assert name[0] != 't'; }
      }
    }
  }

  /** The tool a captured span's name tells of is the one ingestion stored. */
  lemma ToolNamesAgree(t: TraceId, e: Replay.Event, at: Recording.Stamp)
    requires e.action.Tool? || e.action.FailedTool? ==> e.action.name != ""
    ensures var sp := Recording.Emit(t, e, at); ToolName(sp.name) == StoredTool(sp)
  {
    hide Recording.EventAttrs, Recording.EventName, ToolName, StoredTool;
    ToolStored(t, e, at);
    ToolShown(e);
  }

  /** The browser and the ingestion build the same context of a span exactly if
      its name tells of the tool that was stored. */
  lemma SameContext(h: Ingest.Host, sp: Ingest.OtelSpan)
    ensures CtxOf(Ingest.MapSpan(h, sp)) == Ingest.CtxOf(h, sp) <==> ToolName(sp.name) == StoredTool(sp)
  {
    hide Ingest.MapSpan, Ingest.ToolOf, Ingest.BpCtx, CtxOf, ToolName;
    var row := Ingest.MapSpan(h, sp);
    NameKept(h, sp);
    SameCtx(row);
    ToolTold(row, ToolName(sp.name));
    ToolTold(row, StoredTool(sp));
  }

  lemma ToolTold(s: Span, tool: Option<string>)
    ensures "tool_name" in Ingest.BpCtx(s, tool) && Ingest.BpCtx(s, tool)["tool_name"] == Ingest.StrVal(tool)
  {}

  /** On a span whose name tells of its tool, continue stops exactly where ingestion
      counts a hit: for every predicate that Python accepts and in which no
      comparison with true or false makes a difference. */
  lemma StopsAreHits(h: Ingest.Host, dsl: string, sp: Ingest.OtelSpan)
    requires Lexer.ParseSource(Lexer.Python, dsl, h.chars).Ok?
    requires BoolLiterals.Harmless(Lexer.ParseSource(Lexer.Python, dsl, h.chars).value)
    requires ToolName(sp.name) == StoredTool(sp)
    ensures Lexer.ParseSource(Lexer.TypeScript, dsl, h.chars).Ok?
    ensures Matches([Lexer.ParseSource(Lexer.TypeScript, dsl, h.chars).value], Ingest.MapSpan(h, sp))
            <==> Ingest.Matches(Lexer.ParseSource(Lexer.Python, dsl, h.chars).value, h, sp)
  {
    hide Lexer.ParseSource, Ingest.MapSpan, Ingest.ToolOf, Ingest.BpCtx, ToolName, CtxOf, Dialects.TsEval,
         Dialects.PyEval, Dialects.RustEval, BoolLiterals.Harmless, Ops, StoredTool;
    SameContext(h, sp);
    Dialects.AcceptanceCompared(dsl, h.chars);
    var x := Lexer.ParseSource(Lexer.TypeScript, dsl, h.chars).value;
    Dialects.AcceptedOps(dsl, h.chars);
    BoolLiterals.HarmlessEvalAgrees(x, h, sp);
    assert [x][0] == x;
  }

  /** What a predicate can see of a row: its columns, with nothing for a missing one,
      and the tool that its name tells of. */
  lemma FieldsShown(s: Span, tool: string)
    ensures var ctx := CtxOf(s);
            && ctx["kind"] == Str(s.kind) && ctx["name"] == Str(s.name) && ctx["status"] == Str(s.status)
            && ctx["model"] == (if s.model == None then Null else Str(s.model.value))
            && ctx["provider"] == (if s.provider == None then Null else Str(s.provider.value))
            && ctx["error_message"] == (if s.error == None then Null else Str(s.error.value))
            && (ctx["tool_name"] == Str(tool) <==> s.name == "tool:" + tool)
  {
    TellsTool(s.name, tool);
    hide ToolName, Ingest.IntVal, Ingest.RealVal;
  }

  lemma NumbersShown(s: Span)
    ensures var ctx := CtxOf(s);
            && ctx["duration_ms"] == (if s.duration == None then Null else Num(s.duration.value as real))
            && ctx["tokens_in"] == (if s.tokensIn == None then Null else Num(s.tokensIn.value as real))
            && ctx["tokens_out"] == (if s.tokensOut == None then Null else Num(s.tokensOut.value as real))
            && ctx["cost_usd"] == (if s.cost == None then Null else Num(s.cost.value))
  {
    hide ToolName, Ingest.StrVal;
  }

  lemma TellsTool(name: string, tool: string)
    ensures ToolName(name) == Some(tool) <==> name == "tool:" + tool
  {
    if "tool:" <= name { assert name == name[..5] + name[5..]; }
    assert ("tool:" + tool)[5..] == tool;
  }

  /** The predicate that asks for one tool. */
  function AsksTool(tool: string): Expr { Cmp("tool_name", "==", Str(tool)) }

  /** On any other span some predicate tells the two apart. */
  lemma OtherwiseTheyPart(h: Ingest.Host, sp: Ingest.OtelSpan)
    requires ToolName(sp.name) != StoredTool(sp)
    ensures exists tool :: Matches([AsksTool(tool)], Ingest.MapSpan(h, sp)) != Ingest.Matches(AsksTool(tool), h, sp)
  {
    hide Ingest.MapSpan, Ingest.ToolOf, Ingest.BpCtx, CtxOf, ToolName;
    var shown, stored := ToolName(sp.name), StoredTool(sp);
    var tool := if shown.Some? then shown.value else stored.value;
    var row := Ingest.MapSpan(h, sp);
    NameKept(h, sp);
    SameCtx(row);
    ToolTold(row, shown);
    ToolTold(row, stored);
    assert [AsksTool(tool)][0] == AsksTool(tool);
    assert Matches([AsksTool(tool)], row) <==> shown == Some(tool);
    assert Ingest.Matches(AsksTool(tool), h, sp) <==> stored == Some(tool);
  }

  /** The spans of a run are such spans, if every tool call has a name. */
  lemma RunsTellTools(s: Recording.Session, es: seq<Replay.Event>, k: nat)
    requires k < |es| && |s.stamps| == |es| + 1
    requires es[k].action.Tool? || es[k].action.FailedTool? ==> es[k].action.name != ""
    ensures var sp := Recording.Emitted(s, es)[k + 1]; ToolName(sp.name) == StoredTool(sp)
  {
    hide ToolName, Ingest.ToolOf, Recording.Emit;
    ToolNamesAgree(s.trace, es[k], s.stamps[k + 1]);
  }

  /** The browser and the ingestion build the same context, field by field. */
  lemma SameCtx(s: Span)
    ensures CtxOf(s) == Ingest.BpCtx(s, ToolName(s.name))
  {
    assert CtxOf(s).Keys == Ingest.BpCtx(s, ToolName(s.name)).Keys;
  }

  lemma NameKept(h: Ingest.Host, sp: Ingest.OtelSpan)
    ensures Ingest.MapSpan(h, sp).name == sp.name
  {}
}
