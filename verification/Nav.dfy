/**
 Walking the span forest: the preorder walk as it is run, the ancestor chain
 of a span, and the debugger's next, prev, step and finish.
 */
module Nav {
  import opened Spans
  import opened Forest

  // ---------- the walk as it is run ----------

  ghost predicate MapsChildren(m: map<Option<SpanId>, seq<Span>>, spans: seq<Span>) {
    forall key :: (if key in m then m[key] else []) == Kids(spans, key)
  }

  method ChildrenMap(spans: seq<Span>) returns (m: map<Option<SpanId>, seq<Span>>)
    ensures MapsChildren(m, spans)
  {
    m := map[];
    var i := 0;
    while i < |spans|
      invariant i <= |spans|
      invariant forall key :: (if key in m then m[key] else []) == Group(spans, i, key)
    {
      var key := ParentKey(spans, spans[i]);
      var bucket := if key in m then m[key] else [];
      m := m[key := bucket + [spans[i]]];
      i := i + 1;
    }
    ghost var grouped := m;
    var keys := m.Keys;
    while keys != {}
      invariant keys <= m.Keys == grouped.Keys
      invariant forall key :: key in m ==> m[key] == if key in keys then grouped[key] else SortSpans(grouped[key])
    {
      var key :| key in keys;
      m := m[key := SortSpans(m[key])];
      keys := keys - {key};
    }
    forall key ensures (if key in m then m[key] else []) == Kids(spans, key) {
      assert (if key in grouped then grouped[key] else []) == Group(spans, |spans|, key);
    }
  }

  /** The recursive closure of the walk and the list it pushes to. */
  class Walker {
    const spans: seq<Span>
    const children: map<Option<SpanId>, seq<Span>>
    var out: seq<Span>

    constructor (spans: seq<Span>, children: map<Option<SpanId>, seq<Span>>)
      ensures this.spans == spans && this.children == children && out == []
    {
      this.spans, this.children, out := spans, children, [];
    }

    method Walk(parent: Option<SpanId>, ghost p: Path)
      requires DistinctIds(spans) && MapsChildren(children, spans)
      requires IsPath(spans, p) && parent == Tip(p) && HangUnder(spans, Kids(spans, parent), p)
      modifies this`out
      ensures out == old(out) + Tips(WalkPaths(spans, p, Kids(spans, parent)))
      decreases |spans| - |p|
    {
      hide Kids, ParentKey, IsPath, WalkPaths, Tips;
      var kids := if parent in children then children[parent] else [];
      var n := 0;
      assert kids[0..] == kids;
      while n < |kids|
        invariant n <= |kids|
        invariant out + Tips(WalkPaths(spans, p, kids[n..])) == old(out) + Tips(WalkPaths(spans, p, kids))
      {
        var s := kids[n];
        ghost var rest, before := kids[n..], out;
        assert s in kids && rest[0] == s && rest[1..] == kids[n + 1..];
        ghost var q := p + [s];
        PathExtends(spans, p, s);
        KidsMembers(spans, Some(s.id));
        out := out + [s];
        Walk(Some(s.id), q);
        TurnTips(spans, p, rest);
        ghost var deep := Tips(WalkPaths(spans, q, Kids(spans, Some(s.id))));
        ghost var wide := Tips(WalkPaths(spans, p, kids[n + 1..]));
        Absorb(before, s, deep, wide);
        n := n + 1;
      }
      assert kids[n..] == [];
      NothingLeft(spans, p, kids[n..], out);
    }
  }

  lemma NothingLeft(spans: seq<Span>, p: Path, kids: seq<Span>, out: seq<Span>)
    requires DistinctIds(spans) && IsPath(spans, p) && HangUnder(spans, kids, p) && |kids| == 0
    ensures out + Tips(WalkPaths(spans, p, kids)) == out
  {}

  lemma {:induction false} TipsJoin(a: seq<Path>, b: seq<Path>)
    ensures Tips(a + b) == Tips(a) + Tips(b)
  {
    if |a| == 0 {
      assert a + b == b;
    } else {
      TipsJoin(a[1..], b);
      assert (a + b)[1..] == a[1..] + b && (a + b)[0] == a[0];
      var tip := if |a[0]| == 0 then [] else [a[0][|a[0]| - 1]];
      assert tip + (Tips(a[1..]) + Tips(b)) == (tip + Tips(a[1..])) + Tips(b);
      if |a[0]| == 0 { assert [] + Tips(a[1..]) == Tips(a[1..]); assert [] + Tips(a[1..] + b) == Tips(a[1..] + b); }
    }
  }

  lemma TurnTips(spans: seq<Span>, p: Path, kids: seq<Span>)
    requires DistinctIds(spans) && IsPath(spans, p) && HangUnder(spans, kids, p) && |kids| > 0
    requires IsPath(spans, p + [kids[0]]) && HangUnder(spans, Kids(spans, Some(kids[0].id)), p + [kids[0]])
    ensures Tips(WalkPaths(spans, p, kids)) ==
              [kids[0]] + Tips(WalkPaths(spans, p + [kids[0]], Kids(spans, Some(kids[0].id))))
                        + Tips(WalkPaths(spans, p, kids[1..]))
  {
    hide Kids, ParentKey, IsPath;
    var r := p + [kids[0]];
    var deep := WalkPaths(spans, r, Kids(spans, Some(kids[0].id)));
    TipsJoin([r] + deep, WalkPaths(spans, p, kids[1..]));
    TipsJoin([r], deep);
    assert Tips([r]) == [kids[0]];
  }

  method PreorderRun(spans: seq<Span>) returns (out: seq<Span>)
    requires DistinctIds(spans)
    ensures out == Preorder(spans)
  {
    var m := ChildrenMap(spans);
    var w := new Walker(spans, m);
    KidsMembers(spans, None);
    w.Walk(None, []);
    out := w.out;
  }

  // ---------- the ancestor chain ----------

  function PathTo(spans: seq<Span>, id: SpanId): Path {
    if HasId(spans, id) then Climb(spans, [Find(spans, id)]) else []
  }

  method PathToRun(spans: seq<Span>, id: SpanId) returns (out: Path)
    ensures out == PathTo(spans, id)
  {
    out := [];
    var cur := if HasId(spans, id) then Some(Find(spans, id)) else None;
    var seen: set<SpanId> := {};
    while cur.Some? && cur.value.id !in seen
      invariant seen == IdSet(out) && IsChain(spans, out)
      invariant cur.Some? ==> cur.value in spans && HasId(spans, cur.value.id)
      invariant |out| > 0 && cur.Some? ==> ParentKey(spans, out[0]) == Some(cur.value.id)
      invariant |out| > 0 && cur.None? ==> ParentKey(spans, out[0]) == None
      invariant |out| == 0 ==> (cur.Some? <==> HasId(spans, id)) && (cur.Some? ==> cur.value == Find(spans, id))
      invariant |out| > 0 ==> HasId(spans, id) && Climb(spans, out) == PathTo(spans, id)
      invariant cur.Some? ==> cur.value == Find(spans, cur.value.id)
      invariant |out| <= |spans|
      decreases |spans| - |out|
    {
      ghost var was := out;
      var s := cur.value;
      seen := seen + {s.id};
      out := [s] + out;
      ChainGrows(spans, was, s);
      if was == [] { assert out == [s]; }
      cur := match s.parent
             case None => None
             case Some(p) => if HasId(spans, p) then Some(Find(spans, p)) else None;
      if cur.Some? { FindHas(spans, cur.value.id); }
    }
  }

  lemma FindHas(spans: seq<Span>, id: SpanId)
    requires HasId(spans, id)
    ensures HasId(spans, Find(spans, id).id)
  {}

  lemma ChainGrows(spans: seq<Span>, p: Path, s: Span)
    requires IsChain(spans, p) && HasId(spans, s.id) && s == Find(spans, s.id) && s.id !in IdSet(p)
    requires |p| > 0 ==> ParentKey(spans, p[0]) == Some(s.id)
    ensures IsChain(spans, [s] + p) && |p| < |spans| && IdSet([s] + p) == IdSet(p) + {s.id}
    ensures |p| > 0 ==> Climb(spans, p) == Climb(spans, [s] + p)
  {
    forall k | 0 <= k < |p| ensures p[k].id != s.id {
      assert p[k].id in IdSet(p);
    }
    ChainCons(spans, p, s);
    FewerIds([s] + p, spans);
    if |p| > 0 {
      hide ParentKey;
      assert Climb(spans, p) == Climb(spans, [Find(spans, s.id)] + p);
    }
  }

  lemma ChainCons(spans: seq<Span>, p: Path, s: Span)
    requires IsChain(spans, p) && s in spans
    requires forall k :: 0 <= k < |p| ==> p[k].id != s.id
    requires |p| > 0 ==> ParentKey(spans, p[0]) == Some(s.id)
    ensures IsChain(spans, [s] + p) && IdSet([s] + p) == IdSet(p) + {s.id}
  {
    hide ParentKey;
    var q := [s] + p;
    assert forall k :: 0 < k < |q| ==> q[k] == p[k - 1];
    assert forall x :: x in q <==> x == s || x in p;
    forall k | 0 < k < |q| ensures ParentKey(spans, q[k]) == Some(q[k - 1].id) {
      if k > 1 { assert ParentKey(spans, p[k - 1]) == Some(p[k - 2].id); }
    }
  }

  lemma {:induction false} ChainFollowsPath(spans: seq<Span>, p: Path, r: Path, t: nat)
    requires DistinctIds(spans) && IsPath(spans, p) && IsChain(spans, r)
    requires |p| > 0 && |r| > 0 && p[|p| - 1] == r[|r| - 1] && t < |r|
    ensures t < |p| && p[|p| - 1 - t] == r[|r| - 1 - t]
  {
    hide ParentKey;
    if t > 0 {
      ChainFollowsPath(spans, p, r, t - 1);
      var m, n := |p| - t, |r| - t;
      assert p[m] == r[n] && LinkAt(spans, p, m);
      assert ParentKey(spans, r[n]) == Some(r[n - 1].id);
      if m > 0 {
        assert LinkAt(spans, p, m - 1);
        SameIdSameSpan(spans, p[m - 1], r[n - 1]);
      }
    }
  }

  /** For a span that a root reaches, the ancestor chain is its root path; the
      loop ends for the others too, at the first ancestor met twice. */
  lemma PathToIsRootPath(spans: seq<Span>, p: Path)
    requires DistinctIds(spans) && IsPath(spans, p) && |p| > 0
    ensures PathTo(spans, p[|p| - 1].id) == p
  {
    hide ParentKey, Climb, IsPath;
    var s := p[|p| - 1];
    PathPrefix(spans, p, 0);
    SameIdSameSpan(spans, Find(spans, s.id), s);
    var r := Climb(spans, [s]);
    match ParentKey(spans, r[0])
    case None =>
      ChainIsPath(spans, r);
      PathUnique(spans, p, r);
    case Some(id) =>
      var k :| 0 <= k < |r| && r[k].id == id;
      ChainCycle(spans, r, k);
      ChainFollowsPath(spans, p, r, |r| - 1);
      assert r[..k + 1][0] == r[0];
      PathMeetsCycle(spans, p, r[..k + 1], |p| - |r|);
  }

  // ---------- stepping ----------

  datatype Kind = Next | Prev | StepIn | Finish

  datatype Move = To(id: SpanId) | NoSpans | EndOfTrace | TopOfTrace | NoCurrent | NoParent

  /** Position of the first span with this id. */
  function IndexOf(order: seq<Span>, id: SpanId): (i: Option<nat>)
    ensures i.None? <==> !HasId(order, id)
    ensures i.Some? ==> i.value < |order| && order[i.value].id == id
  {
    if |order| == 0 then None
    else if order[0].id == id then Some(0)
    else
      assert HasId(order, id) <==> HasId(order[1..], id) by { IdInTail(order, id); }
      match IndexOf(order[1..], id) case None => None case Some(k) => Some(k + 1)
  }

  lemma IdInTail(order: seq<Span>, id: SpanId)
    requires |order| > 0 && order[0].id != id
    ensures HasId(order, id) <==> HasId(order[1..], id)
  {
    if k :| 0 <= k < |order| && order[k].id == id { assert order[1..][k - 1].id == id; }
    if k :| 0 <= k < |order[1..]| && order[1..][k].id == id { assert order[k + 1].id == id; }
  }

  function FirstChild(spans: seq<Span>, id: SpanId): Option<Span> {
    var kids := Kids(spans, Some(id));
    if |kids| == 0 then None else Some(kids[0])
  }

  function ParentOf(spans: seq<Span>, id: SpanId): Option<Span> {
    if !HasId(spans, id) then None
    else
      match Find(spans, id).parent
      case None => None
      case Some(p) => if HasId(spans, p) then Some(Find(spans, p)) else None
  }

  function Step(order: seq<Span>, spans: seq<Span>, current: Option<SpanId>, kind: Kind): Move {
    if |order| == 0 then NoSpans
    else
      var i := match current case None => None case Some(id) => IndexOf(order, id);
      match kind
      case Next =>
        if i.None? then To(order[0].id)
        else if i.value + 1 < |order| then To(order[i.value + 1].id) else EndOfTrace
      case Prev =>
        if i.None? then To(order[0].id)
        else if i.value > 0 then To(order[i.value - 1].id) else TopOfTrace
      case StepIn =>
        if i.None? then To(order[0].id)
        else
          var c := FirstChild(spans, current.value);
          if c.Some? then To(c.value.id)
          else if i.value + 1 < |order| then To(order[i.value + 1].id) else EndOfTrace
      case Finish =>
        if i.None? then NoCurrent
        else
          var p := ParentOf(spans, current.value);
          if p.Some? then To(p.value.id) else NoParent
  }

  lemma IndexOfDistinct(order: seq<Span>, i: nat)
    requires DistinctIds(order) && i < |order|
    ensures IndexOf(order, order[i].id) == Some(i)
  {
    assert HasId(order, order[i].id);
  }

  /** The first child of a span comes right after it in the preorder. */
  lemma FirstChildNext(spans: seq<Span>, i: nat)
    requires DistinctIds(spans) && i < |Preorder(spans)| && |Kids(spans, Some(Preorder(spans)[i].id))| > 0
    ensures i + 1 < |Preorder(spans)| && Preorder(spans)[i + 1] == Kids(spans, Some(Preorder(spans)[i].id))[0]
  {
    hide ParentKey, IsPath, Kids, Preorder, PreorderPaths, PathLess;
    PreorderAt(spans);
    PreorderOrdered(spans);
    var ps := PreorderPaths(spans);
    var p := ps[i];
    var c := Kids(spans, Some(Preorder(spans)[i].id))[0];
    var q := p + [c];
    KidsMembers(spans, Some(Preorder(spans)[i].id));
    assert c in Kids(spans, Some(Preorder(spans)[i].id));
    PathExtends(spans, p, c);
    PreorderVisits(spans, q);
    var k :| 0 <= k < |ps| && ps[k] == q;
    AncestorFirst(p, q);
    PathLessAsymmetric(p, q);
    if i + 1 < k {
      NothingBetween(spans, p, c, ps[i + 1]);
    }
  }

  /** No root path lies between a path and its extension by the first child. */
  lemma NothingBetween(spans: seq<Span>, p: Path, c: Span, r: Path)
    requires DistinctIds(spans) && IsPath(spans, p) && |p| > 0 && IsPath(spans, r)
    requires var kids := Kids(spans, Tip(p)); |kids| > 0 && kids[0] == c
    requires PathLess(p, r)
    ensures !PathLess(r, p + [c])
  {
    hide ParentKey, IsPath, Kids;
    var q := p + [c];
    var kids := Kids(spans, Tip(p));
    KidsMembers(spans, Tip(p));
    if PathLess(r, q) {
      PrefixConvex(p, r, q);
      PathLessAsymmetric(p, r);
      PathPrefix(spans, r, |p|);
      assert r[..|p|] == p;
      var m :| 0 <= m < |kids| && kids[m] == r[|p|];
      assert m == 0 || Before(c, r[|p|]);
      ExtensionParts(p, c, r);
    }
  }

  lemma ExtensionParts(p: Path, c: Span, r: Path)
    requires p < r && (r[|p|] == c || Before(c, r[|p|]))
    ensures !PathLess(r, p + [c])
  {
    var q := p + [c];
    assert forall n :: 0 <= n < |p| ==> q[n] == p[n] == r[n];
    forall k: nat ensures !PartsAt(r, q, k) {}
  }

  /** On the preorder, stepping in is the same as going to the next span. */
  lemma StepIsNext(spans: seq<Span>, current: Option<SpanId>)
    requires DistinctIds(spans)
    ensures Step(Preorder(spans), spans, current, StepIn) == Step(Preorder(spans), spans, current, Next)
  {
    hide Preorder, Kids;
    var order := Preorder(spans);
    if current.Some? && HasId(order, current.value) && |Kids(spans, current)| > 0 {
      FirstChildNext(spans, IndexOf(order, current.value).value);
    }
  }

  /** The span reached after n presses of next from no selection. */
  function AfterNexts(order: seq<Span>, spans: seq<Span>, n: nat): Option<SpanId> {
    if n == 0 then None
    else
      var at := AfterNexts(order, spans, n - 1);
      match Step(order, spans, at, Next) case To(id) => Some(id) case _ => at
  }

  /** Pressing next visits the whole order, one span after the other, and then
      stays at the end. */
  lemma {:induction false} NextVisitsAll(order: seq<Span>, spans: seq<Span>, n: nat)
    requires DistinctIds(order) && |order| > 0 && n > 0
    ensures AfterNexts(order, spans, n) == Some(order[if n <= |order| then n - 1 else |order| - 1].id)
  {
    hide IndexOf, HasId, ParentKey, FirstChild, ParentOf;
    if n > 1 {
      NextVisitsAll(order, spans, n - 1);
      IndexOfDistinct(order, if n - 1 <= |order| then n - 2 else |order| - 1);
    }
  }

  lemma PrevUndoesNext(order: seq<Span>, spans: seq<Span>, i: nat)
    requires DistinctIds(order) && i + 1 < |order|
    ensures Step(order, spans, Some(order[i].id), Next) == To(order[i + 1].id)
    ensures Step(order, spans, Some(order[i + 1].id), Prev) == To(order[i].id)
  {
    IndexOfDistinct(order, i);
    IndexOfDistinct(order, i + 1);
  }

  /** Nowhere to go without spans; with no span selected, or one that is not in the
      order, every key but finish leads to the first span. */
  lemma MovesFromNowhere(order: seq<Span>, spans: seq<Span>, current: Option<SpanId>, kind: Kind)
    requires |order| == 0 || current == None || forall s :: s in order ==> s.id != current.value
    ensures Step(order, spans, current, kind) ==
              if |order| == 0 then NoSpans else if kind == Finish then NoCurrent else To(order[0].id)
  {}

  lemma MovesAtTheEnds(order: seq<Span>, spans: seq<Span>)
    requires DistinctIds(order) && |order| > 0
    ensures Step(order, spans, Some(order[|order| - 1].id), Next) == EndOfTrace
    ensures Step(order, spans, Some(order[0].id), Prev) == TopOfTrace
  {
    IndexOfDistinct(order, |order| - 1);
  }

  /** Finish moves to an earlier span, the next-to-last one of the ancestor
      chain; it stays only at a root. */
  lemma FinishGoesUp(spans: seq<Span>, i: nat)
    requires DistinctIds(spans) && i < |Preorder(spans)|
    ensures var order, s := Preorder(spans), Preorder(spans)[i];
            var chain := PathTo(spans, s.id);
            match Step(order, spans, Some(s.id), Finish)
            case To(id) =>
              |chain| > 1 && chain[|chain| - 2].id == id && exists j :: 0 <= j < i && order[j].id == id
            case NoParent => |chain| == 1
            case _ => false
  {
    hide Preorder, PreorderPaths, IsPath, PathLess;
    PreorderAt(spans);
    PreorderExact(spans);
    var order, s := Preorder(spans), Preorder(spans)[i];
    IndexOfDistinct(order, i);
    ParentOfIsParentKey(spans, s);
    var p := PreorderPaths(spans)[i];
    PathToIsRootPath(spans, p);
    PathPrefix(spans, p, |p| - 1);
    if ParentKey(spans, s).Some? {
      var j := ParentsFirst(spans, i);
    }
  }

  lemma ParentOfIsParentKey(spans: seq<Span>, s: Span)
    requires DistinctIds(spans) && s in spans
    ensures ParentOf(spans, s.id).Some? <==> ParentKey(spans, s).Some?
    ensures ParentKey(spans, s).Some? ==> ParentOf(spans, s.id).value.id == ParentKey(spans, s).value
  {
    assert HasId(spans, s.id);
    SameIdSameSpan(spans, Find(spans, s.id), s);
  }
}
