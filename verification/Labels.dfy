/** What the other columns of a trace row say: its title, its links, its project, and the order of the groups. */
module Labels {
  import opened Spans
  import opened Ingest
  import opened Columns
  import Db

  // ---------- the last span that says something ----------

  /** The text under a key, unless it is empty. */
  function TextAt(a: AttrMap, name: string): Option<string> {
    if Says(a, name) then Some(a[K(name)].s) else None
  }

  function RootName(sp: OtelSpan): Option<string> { if sp.parent == None then Some(sp.name) else None }

  function ParentLink(sp: OtelSpan): Option<string> { TextAt(sp.attrs, "stethoscope.parent_trace_id") }

  function BranchLink(sp: OtelSpan): Option<string> { TextAt(sp.attrs, "stethoscope.branch_point_span_id") }

  /** Of the first n spans, the one with the greatest index that says anything says this. */
  ghost predicate LastSays(spans: seq<OtelSpan>, n: nat, says: OtelSpan -> Option<string>, r: Option<string>)
    requires n <= |spans|
  {
    match r
    case None => forall k :: 0 <= k < n ==> says(spans[k]) == None
    case Some(x) => exists k :: 0 <= k < n && LastSaysAt(spans, n, says, k) && says(spans[k]) == r
  }

  ghost predicate LastSaysAt(spans: seq<OtelSpan>, n: nat, says: OtelSpan -> Option<string>, k: int)
    requires n <= |spans|
  {
    0 <= k < n && says(spans[k]) != None && forall j :: k < j < n ==> says(spans[j]) == None
  }

  lemma OneMoreSays(spans: seq<OtelSpan>, n: nat, says: OtelSpan -> Option<string>, r: Option<string>)
    requires n < |spans| && LastSays(spans, n, says, r)
    ensures LastSays(spans, n + 1, says, if says(spans[n]) != None then says(spans[n]) else r)
  {
    if says(spans[n]) != None {
      assert LastSaysAt(spans, n + 1, says, n);
    } else if r.Some? {
      var k :| 0 <= k < n && LastSaysAt(spans, n, says, k) && says(spans[k]) == r;
      assert LastSaysAt(spans, n + 1, says, k);
    }
  }

  ghost predicate TotalsSay(h: Host, spans: seq<OtelSpan>, n: nat)
    requires n <= |spans|
  {
    var t := TotalsOf(h, spans, n);
    && LastSays(spans, n, RootName, t.root)
    && LastSays(spans, n, ParentLink, t.parentTrace) && LastSays(spans, n, BranchLink, t.branchPoint)
  }

  lemma OneMoreTotal(h: Host, spans: seq<OtelSpan>, n: nat)
    requires n < |spans| && TotalsSay(h, spans, n)
    ensures TotalsSay(h, spans, n + 1)
  {
    hide LastSays, AddTotals, RootName, ParentLink, BranchLink;
    var t := TotalsOf(h, spans, n);
    OneMoreSays(spans, n, RootName, t.root);
    OneMoreSays(spans, n, ParentLink, t.parentTrace);
    OneMoreSays(spans, n, BranchLink, t.branchPoint);
    Added(t, h, spans[n]);
  }

  lemma NothingSaid(h: Host, spans: seq<OtelSpan>)
    ensures TotalsSay(h, spans, 0)
  {}

  lemma {:induction false} AllTotalsSay(h: Host, spans: seq<OtelSpan>, n: nat)
    requires n <= |spans|
    ensures TotalsSay(h, spans, n)
  {
    hide TotalsSay;
    if n == 0 {
      NothingSaid(h, spans);
    } else {
      AllTotalsSay(h, spans, n - 1);
      OneMoreTotal(h, spans, n - 1);
    }
  }

  lemma Added(t: Totals, h: Host, sp: OtelSpan)
    ensures var u := AddTotals(t, h, sp);
            && u.root == (if RootName(sp) != None then RootName(sp) else t.root)
            && u.parentTrace == (if ParentLink(sp) != None then ParentLink(sp) else t.parentTrace)
            && u.branchPoint == (if BranchLink(sp) != None then BranchLink(sp) else t.branchPoint)
  {
    hide MapSpan;
  }

  /** The title of a trace is the name of the last span of the group without a parent;
      each link is the one the last span with that link gives; none where none does. */
  lemma TitleAndLinks(env: Env, o: Origin, g: Bucket)
    ensures var row := TraceRow(env, o, g);
            && LastSays(g.spans, |g.spans|, RootName, row.title)
            && LastSays(g.spans, |g.spans|, ParentLink, row.parentTrace)
            && LastSays(g.spans, |g.spans|, BranchLink, row.branchPoint)
  {
    AllTotalsSay(env.host, g.spans, |g.spans|);
    hide LastSays, TotalsOf;
  }

  // ---------- without times ----------

  lemma {:induction false} Untimed(h: Host, spans: seq<OtelSpan>, n: nat)
    requires n <= |spans| && forall sp :: sp in spans ==> sp.start == 0
    ensures TotalsOf(h, spans, n).start == None
  {
    hide MapSpan;
    if n > 0 {
      assert spans[n - 1] in spans;
      Untimed(h, spans, n - 1);
    }
  }

  /** A group whose spans have no start begins when it is ingested. */
  lemma StartsNow(env: Env, o: Origin, g: Bucket)
    requires forall sp :: sp in g.spans ==> sp.start == 0
    ensures TraceRow(env, o, g).start == env.now
  {
    Untimed(env.host, g.spans, |g.spans|);
    hide TotalsOf;
  }

  // ---------- what a resource gives ----------

  lemma ProjectRead(a: AttrMap)
    ensures ProjectName(a) ==
              if Says(a, "stethoscope.project") then a[K("stethoscope.project")].s
              else if Says(a, "service.name") then a[K("service.name")].s
              else "default"
  {}

  lemma FrameworkRead(env: Env, r: Resource, project: Db.Ulid, g: Bucket, s: string)
    ensures var row := TraceRow(env, OriginOf(r, project), g);
            var f, v := K("stethoscope.framework"), K("stethoscope.framework_version");
            && row.id == g.trace && row.project == project
            && (row.framework == Some(s) <==> f in r.attrs && r.attrs[f] == S(s))
            && (row.frameworkVersion == Some(s) <==> v in r.attrs && r.attrs[v] == S(s))
  {
    hide TotalsOf;
  }

  // ---------- the order of groups ----------

  /** The spans of one trace, in the order they came. */
  function OfTrace(spans: seq<OtelSpan>, n: nat, t: TraceId): seq<OtelSpan>
    requires n <= |spans|
  {
    if n == 0 then []
    else OfTrace(spans, n - 1, t) + if spans[n - 1].trace == t then [spans[n - 1]] else []
  }

  /** The traces of the spans, each where it first comes up. */
  function Firsts(spans: seq<OtelSpan>, n: nat): seq<TraceId>
    requires n <= |spans|
  {
    if n == 0 then []
    else
      var before := Firsts(spans, n - 1);
      if spans[n - 1].trace in before then before else before + [spans[n - 1].trace]
  }

  /** The groups are for these traces, one each, and each holds these spans. */
  ghost predicate AreGroups(gs: seq<Bucket>, ts: seq<TraceId>, spans: TraceId -> seq<OtelSpan>) {
    |gs| == |ts| && forall k :: 0 <= k < |gs| ==> gs[k] == Bucket(ts[k], spans(ts[k]))
  }

  ghost predicate NoTwice(ts: seq<TraceId>) {
    forall i, j :: 0 <= i < j < |ts| ==> ts[i] != ts[j]
  }

  lemma {:induction false} SpanAdded(gs: seq<Bucket>, ts: seq<TraceId>, spans: TraceId -> seq<OtelSpan>, sp: OtelSpan)
    requires AreGroups(gs, ts, spans) && NoTwice(ts) && (sp.trace !in ts ==> spans(sp.trace) == [])
    ensures AreGroups(AddSpan(gs, sp), if sp.trace in ts then ts else ts + [sp.trace],
                      (t: TraceId) => if t == sp.trace then spans(t) + [sp] else spans(t))
  {
    var more := (t: TraceId) => if t == sp.trace then spans(t) + [sp] else spans(t);
    if |gs| == 0 {
    } else if ts[0] == sp.trace {
      SameGroups(gs[1..], ts[1..], spans, more);
      GroupsCons(Bucket(ts[0], more(ts[0])), gs[1..], ts, more);
    } else {
      SpanAdded(gs[1..], ts[1..], spans, sp);
      var rest := if sp.trace in ts[1..] then ts[1..] else ts[1..] + [sp.trace];
      assert ([ts[0]] + rest)[1..] == rest;
      assert [ts[0]] + rest == if sp.trace in ts then ts else ts + [sp.trace];
      GroupsCons(gs[0], AddSpan(gs[1..], sp), [ts[0]] + rest, more);
    }
  }

  lemma GroupsCons(g: Bucket, gs: seq<Bucket>, ts: seq<TraceId>, spans: TraceId -> seq<OtelSpan>)
    requires |ts| > 0 && g == Bucket(ts[0], spans(ts[0])) && AreGroups(gs, ts[1..], spans)
    ensures AreGroups([g] + gs, ts, spans)
  {}

  lemma SameGroups(gs: seq<Bucket>, ts: seq<TraceId>, spans: TraceId -> seq<OtelSpan>,
                   others: TraceId -> seq<OtelSpan>)
    requires AreGroups(gs, ts, spans) && forall t :: t in ts ==> spans(t) == others(t)
    ensures AreGroups(gs, ts, others)
  {}

  lemma {:induction false} GroupsAre(spans: seq<OtelSpan>, n: nat)
    requires n <= |spans|
    ensures AreGroups(Grouped(spans, n), Firsts(spans, n), (t: TraceId) => OfTrace(spans, n, t))
    ensures NoTwice(Firsts(spans, n))
    ensures forall t :: t !in Firsts(spans, n) ==> OfTrace(spans, n, t) == []
  {
    if n > 0 {
      GroupsAre(spans, n - 1);
      SpanAdded(Grouped(spans, n - 1), Firsts(spans, n - 1), (t: TraceId) => OfTrace(spans, n - 1, t), spans[n - 1]);
    }
  }

  /** Grouping keeps two orders: the groups stand as their traces first come up in the
      request, and the spans of each as they came. */
  lemma GroupsKeepOrder(r: Resource)
    ensures var all, gs := Flatten(r.scopes), Buckets(r);
            && |gs| == |Firsts(all, |all|)|
            && forall k :: 0 <= k < |gs| ==>
                 gs[k].trace == Firsts(all, |all|)[k] && gs[k].spans == OfTrace(all, |all|, gs[k].trace)
  {
    var all := Flatten(r.scopes);
    GroupsAre(all, |all|);
  }
}
