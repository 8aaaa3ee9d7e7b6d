/** The forest behind a flat list of spans with parent pointers; parents may be missing or run in a cycle. */
module Forest {
  import opened Spans

  /** A chain of spans from a root down. */
  type Path = seq<Span>

  predicate HasId(spans: seq<Span>, id: SpanId) {
    exists k :: 0 <= k < |spans| && spans[k].id == id
  }

  /** The parent a span hangs under: none if it is absent from the list. */
  function ParentKey(spans: seq<Span>, s: Span): Option<SpanId> {
    match s.parent
    case None => None
    case Some(p) => if HasId(spans, p) then Some(p) else None
  }

  // ---------- children, in order ----------

  /** The first n spans that hang under key, in list order. */
  function Group(spans: seq<Span>, n: nat, key: Option<SpanId>): seq<Span>
    requires n <= |spans|
  {
    if n == 0 then []
    else if ParentKey(spans, spans[n - 1]) == key then Group(spans, n - 1, key) + [spans[n - 1]]
    else Group(spans, n - 1, key)
  }

  function InsertSpan(s: Span, xs: seq<Span>): seq<Span> {
    if |xs| == 0 || Before(s, xs[0]) then [s] + xs else [xs[0]] + InsertSpan(s, xs[1..])
  }

  function SortSpans(xs: seq<Span>): seq<Span> {
    if |xs| == 0 then [] else InsertSpan(xs[0], SortSpans(xs[1..]))
  }

  function Kids(spans: seq<Span>, key: Option<SpanId>): seq<Span> {
    SortSpans(Group(spans, |spans|, key))
  }

  lemma {:induction false} InsertSorts(s: Span, xs: seq<Span>)
    requires SortedSpans(xs) && forall x :: x in xs ==> x.id != s.id
    ensures SortedSpans(InsertSpan(s, xs))
    ensures multiset(InsertSpan(s, xs)) == multiset{s} + multiset(xs)
  {
    InsertMultiset(s, xs);
    if |xs| > 0 && !Before(s, xs[0]) {
      var rest := InsertSpan(s, xs[1..]);
      InsertSorts(s, xs[1..]);
      forall x | x in rest ensures Before(xs[0], x) {
        assert x in multiset(rest);
        LaterInTail(xs, x, s);
      }
      SortedCons(xs[0], rest);
    } else {
      forall x | x in xs ensures Before(s, x) {
        assert |xs| > 0 && (x == xs[0] || Before(xs[0], x));
      }
      SortedCons(s, xs);
    }
  }

  lemma {:induction false} InsertMultiset(s: Span, xs: seq<Span>)
    ensures multiset(InsertSpan(s, xs)) == multiset{s} + multiset(xs)
  {
    hide Before;
    if |xs| == 0 || Before(s, xs[0]) {
      assert multiset([s] + xs) == multiset{s} + multiset(xs);
    } else {
      InsertMultiset(s, xs[1..]);
      assert [xs[0]] + xs[1..] == xs;
    }
  }

  lemma SortedCons(s: Span, xs: seq<Span>)
    requires SortedSpans(xs) && forall x :: x in xs ==> Before(s, x)
    ensures SortedSpans([s] + xs)
  {
    hide Before;
  }

  lemma LaterInTail(xs: seq<Span>, x: Span, s: Span)
    requires SortedSpans(xs) && |xs| > 0 && (x == s || x in xs[1..]) && s.id != xs[0].id && !Before(s, xs[0])
    ensures Before(xs[0], x)
  {}

  lemma {:induction false} SortSorts(xs: seq<Span>)
    requires DistinctIds(xs)
    ensures SortedSpans(SortSpans(xs)) && multiset(SortSpans(xs)) == multiset(xs)
  {
    if |xs| > 0 {
      SortSorts(xs[1..]);
      forall x | x in SortSpans(xs[1..]) ensures x.id != xs[0].id {
        assert x in multiset(xs[1..]);
      }
      InsertSorts(xs[0], SortSpans(xs[1..]));
      assert [xs[0]] + xs[1..] == xs;
    }
  }

  lemma {:induction false} GroupMembers(spans: seq<Span>, n: nat, key: Option<SpanId>)
    requires n <= |spans| && DistinctIds(spans)
    ensures DistinctIds(Group(spans, n, key))
    ensures forall s :: s in Group(spans, n, key) <==> s in spans[..n] && ParentKey(spans, s) == key
  {
    hide ParentKey;
    if n > 0 {
      GroupMembers(spans, n - 1, key);
      assert spans[..n] == spans[..n - 1] + [spans[n - 1]];
      forall s | s in Group(spans, n - 1, key) ensures s.id != spans[n - 1].id {
        assert s in spans[..n - 1];
      }
    }
  }

  lemma KidsMembers(spans: seq<Span>, key: Option<SpanId>)
    requires DistinctIds(spans)
    ensures SortedSpans(Kids(spans, key))
    ensures forall s :: s in Kids(spans, key) <==> s in spans && ParentKey(spans, s) == key
  {
    GroupMembers(spans, |spans|, key);
    assert spans[..|spans|] == spans;
    var g := Group(spans, |spans|, key);
    SortSorts(g);
    forall s ensures s in SortSpans(g) <==> s in g {
      assert s in SortSpans(g) <==> s in multiset(SortSpans(g));
    }
  }

  // ---------- root paths ----------

  ghost predicate LinkAt(spans: seq<Span>, p: Path, k: nat)
    requires k < |p|
  {
    p[k] in spans && ParentKey(spans, p[k]) == Above(p, k)
  }

  /** Each span hangs under the one before it, the first under nothing. */
  ghost predicate IsPath(spans: seq<Span>, p: Path) {
    forall k :: 0 <= k < |p| ==> LinkAt(spans, p, k)
  }

  /** What the k-th span of a path must hang under. */
  function Above(p: Path, k: nat): Option<SpanId>
    requires k < |p|
  {
    if k == 0 then None else Some(p[k - 1].id)
  }

  function Tip(p: Path): Option<SpanId> {
    if |p| == 0 then None else Some(p[|p| - 1].id)
  }

  lemma SameIdSameSpan(spans: seq<Span>, s: Span, t: Span)
    requires DistinctIds(spans) && s in spans && t in spans && s.id == t.id
    ensures s == t
  {}

  lemma {:induction false} PathDistinct(spans: seq<Span>, p: Path, a: nat, b: nat)
    requires DistinctIds(spans) && IsPath(spans, p) && a < b < |p|
    ensures p[a].id != p[b].id
  {
    hide ParentKey;
    assert LinkAt(spans, p, a) && LinkAt(spans, p, b);
    if p[a].id == p[b].id {
      SameIdSameSpan(spans, p[a], p[b]);
      if a > 0 { PathDistinct(spans, p, a - 1, b - 1); }
    }
  }

  function IdSet(xs: seq<Span>): set<SpanId> {
    set s | s in xs :: s.id
  }

  lemma {:induction false} IdSetSize(xs: seq<Span>)
    ensures |IdSet(xs)| <= |xs|
    ensures DistinctIds(xs) ==> |IdSet(xs)| == |xs|
  {
    if |xs| > 0 {
      var k := |xs| - 1;
      IdSetSize(xs[..k]);
      assert xs == xs[..k] + [xs[k]];
      assert IdSet(xs) == IdSet(xs[..k]) + {xs[k].id};
      if DistinctIds(xs) { assert xs[k].id !in IdSet(xs[..k]); }
    }
  }

  lemma FewerIds(xs: seq<Span>, spans: seq<Span>)
    requires DistinctIds(xs) && forall s :: s in xs ==> s in spans
    ensures |xs| <= |spans|
  {
    IdSetSize(xs);
    IdSetSize(spans);
    SubsetSize(IdSet(xs), IdSet(spans));
  }

  lemma {:induction false} SubsetSize<T>(a: set<T>, b: set<T>)
    requires a <= b
    ensures |a| <= |b|
  {
    if a != {} {
      var x :| x in a;
      SubsetSize(a - {x}, b - {x});
    }
  }

  /** No path is longer than the list, which is what ends the walk. */
  lemma PathBounded(spans: seq<Span>, p: Path)
    requires DistinctIds(spans) && IsPath(spans, p)
    ensures |p| <= |spans|
  {
    hide ParentKey;
    forall a, b | 0 <= a < b < |p| ensures p[a].id != p[b].id {
      PathDistinct(spans, p, a, b);
    }
    forall k | 0 <= k < |p| ensures p[k] in spans {
      assert LinkAt(spans, p, k);
    }
    FewerIds(p, spans);
  }

  lemma PathExtends(spans: seq<Span>, p: Path, s: Span)
    requires DistinctIds(spans) && IsPath(spans, p) && s in spans && ParentKey(spans, s) == Tip(p)
    ensures IsPath(spans, p + [s]) && |p| < |spans|
  {
    hide ParentKey;
    forall k | 0 <= k < |p + [s]| ensures LinkAt(spans, p + [s], k) {
      if k < |p| { assert LinkAt(spans, p, k); }
    }
    PathBounded(spans, p + [s]);
  }

  lemma PathPrefix(spans: seq<Span>, p: Path, n: nat)
    requires IsPath(spans, p) && n <= |p|
    ensures IsPath(spans, p[..n])
    ensures n < |p| ==> p[n] in spans && ParentKey(spans, p[n]) == Tip(p[..n])
    ensures |p| > 0 ==> p[|p| - 1] in spans
  {
    hide ParentKey;
    forall k | 0 <= k < n ensures LinkAt(spans, p[..n], k) {
      assert LinkAt(spans, p, k);
    }
    if n < |p| { assert LinkAt(spans, p, n); }
    if |p| > 0 { assert LinkAt(spans, p, |p| - 1); }
  }

  /** A span has at most one root path. */
  lemma {:induction false} PathUnique(spans: seq<Span>, p: Path, q: Path)
    requires DistinctIds(spans) && IsPath(spans, p) && IsPath(spans, q) && Tip(p) == Tip(q)
    ensures p == q
  {
    hide ParentKey, IsPath;
    if |p| > 0 {
      var m, n := |p| - 1, |q| - 1;
      PathPrefix(spans, p, m);
      PathPrefix(spans, q, n);
      SameIdSameSpan(spans, p[m], q[n]);
      PathUnique(spans, p[..m], q[..n]);
      assert p == p[..m] + [p[m]] && q == q[..n] + [q[n]];
    }
  }

  // ---------- the depth-first walk ----------

  ghost predicate HangUnder(spans: seq<Span>, kids: seq<Span>, p: Path) {
    forall s :: s in kids ==> s in spans && ParentKey(spans, s) == Tip(p)
  }

  /** The root paths visited below p, given the children still to visit. */
  function WalkPaths(spans: seq<Span>, p: Path, kids: seq<Span>): seq<Path>
    requires DistinctIds(spans) && IsPath(spans, p) && HangUnder(spans, kids, p)
    decreases |spans| - |p|, |kids|
  {
    if |kids| == 0 then []
    else
      var q := p + [kids[0]];
      assert kids[0] in kids;
      PathExtends(spans, p, kids[0]);
      KidsMembers(spans, Some(kids[0].id));
      [q] + WalkPaths(spans, q, Kids(spans, Some(kids[0].id))) + WalkPaths(spans, p, kids[1..])
  }

  lemma Absorb<T>(before: seq<T>, head: T, deep: seq<T>, wide: seq<T>)
    ensures before + ([head] + deep + wide) == ((before + [head]) + deep) + wide
  {}

  function PreorderPaths(spans: seq<Span>): seq<Path>
    requires DistinctIds(spans)
  {
    KidsMembers(spans, None);
    WalkPaths(spans, [], Kids(spans, None))
  }

  /** The span each non-empty path leads to. */
  function Tips(ps: seq<Path>): seq<Span> {
    if |ps| == 0 then []
    else if |ps[0]| == 0 then Tips(ps[1..])
    else [ps[0][|ps[0]| - 1]] + Tips(ps[1..])
  }

  function Preorder(spans: seq<Span>): seq<Span>
    requires DistinctIds(spans)
  {
    Tips(PreorderPaths(spans))
  }

  // ---------- what the walk visits ----------

  ghost predicate Below(q: Path, p: Path, kids: seq<Span>) {
    |p| < |q| && p <= q && q[|p|] in kids
  }

  lemma {:induction false} WalkVisits(spans: seq<Span>, p: Path, kids: seq<Span>, q: Path)
    requires DistinctIds(spans) && IsPath(spans, p) && HangUnder(spans, kids, p)
    ensures q in WalkPaths(spans, p, kids) <==> IsPath(spans, q) && Below(q, p, kids)
    decreases |spans| - |p|, |kids|
  {
    hide ParentKey, IsPath, Kids;
    if |kids| > 0 {
      var k := kids[0];
      assert k in kids;
      var r := p + [k];
      PathExtends(spans, p, k);
      KidsMembers(spans, Some(k.id));
      WalkVisits(spans, r, Kids(spans, Some(k.id)), q);
      WalkVisits(spans, p, kids[1..], q);
      assert kids == [k] + kids[1..];
      if IsPath(spans, q) { BelowSplits(spans, p, k, kids[1..], q); }
    }
  }

  /** A path below p is p with its first child, or below that child, or below
      p through another child. */
  lemma BelowSplits(spans: seq<Span>, p: Path, k: Span, rest: seq<Span>, q: Path)
    requires DistinctIds(spans) && IsPath(spans, p + [k]) && IsPath(spans, q)
    ensures Below(q, p, [k] + rest) <==>
              q == p + [k] || Below(q, p + [k], Kids(spans, Some(k.id))) || Below(q, p, rest)
  {
    hide ParentKey, IsPath, Kids;
    var r := p + [k];
    KidsMembers(spans, Some(k.id));
    if |q| > |r| { PathPrefix(spans, q, |r|); }
    if |p| < |q| && p <= q && q[|p|] == k { assert q[..|r|] == r; }
    if r <= q { assert q[|p|] == r[|p|] && q[..|p|] == r[..|p|] == p; }
  }

  /** The walk visits every root path, and nothing else. */
  lemma PreorderVisits(spans: seq<Span>, q: Path)
    requires DistinctIds(spans)
    ensures q in PreorderPaths(spans) <==> IsPath(spans, q) && |q| > 0
  {
    hide ParentKey;
    KidsMembers(spans, None);
    WalkVisits(spans, [], Kids(spans, None), q);
    if IsPath(spans, q) && |q| > 0 { assert LinkAt(spans, q, 0); }
  }

  // ---------- the order of the walk ----------

  /** p and q part at position k, where p ends or takes the earlier sibling. */
  ghost predicate PartsAt(p: Path, q: Path, k: nat) {
    k <= |p| && k < |q| && p[..k] == q[..k] && (k < |p| ==> Before(p[k], q[k]))
  }

  ghost predicate PathLess(p: Path, q: Path) {
    exists k: nat :: PartsAt(p, q, k)
  }

  lemma PartsAsymmetric(p: Path, q: Path, k: nat, m: nat)
    requires PartsAt(p, q, k)
    ensures !PartsAt(q, p, m)
  {
    assert k < m <= |p| ==> p[..m][k] == p[k];
    assert k < m <= |q| ==> q[..m][k] == q[k];
    assert m < k <= |p| ==> p[..k][m] == p[m];
    assert m < k <= |q| ==> q[..k][m] == q[m];
  }

  lemma PathLessAsymmetric(p: Path, q: Path)
    requires PathLess(p, q)
    ensures !PathLess(q, p)
  {
    var k: nat :| PartsAt(p, q, k);
    forall m: nat ensures !PartsAt(q, p, m) {
      PartsAsymmetric(p, q, k, m);
    }
  }

  ghost predicate InWalkOrder(ps: seq<Path>) {
    forall i, j :: 0 <= i < j < |ps| ==> PathLess(ps[i], ps[j])
  }

  lemma WalkOrderJoin(a: seq<Path>, b: seq<Path>)
    requires InWalkOrder(a) && InWalkOrder(b)
    requires forall p, q :: p in a && q in b ==> PathLess(p, q)
    ensures InWalkOrder(a + b)
  {
    hide PathLess;
  }

  lemma SiblingsPart(p: Path, q: Path, at: nat)
    requires at < |p| && at < |q| && p[..at] == q[..at] && Before(p[at], q[at])
    ensures PathLess(p, q)
  {
    assert PartsAt(p, q, at);
  }

  lemma AncestorFirst(p: Path, q: Path)
    requires p < q
    ensures PathLess(p, q)
  {
    assert PartsAt(p, q, |p|);
  }

  lemma {:induction false} WalkOrdered(spans: seq<Span>, p: Path, kids: seq<Span>)
    requires DistinctIds(spans) && IsPath(spans, p) && HangUnder(spans, kids, p) && SortedSpans(kids)
    ensures InWalkOrder(WalkPaths(spans, p, kids))
    decreases |spans| - |p|, |kids|
  {
    if |kids| > 0 {
      var k := kids[0];
      assert k in kids;
      var r := p + [k];
      PathExtends(spans, p, k);
      KidsMembers(spans, Some(k.id));
      var deep := WalkPaths(spans, r, Kids(spans, Some(k.id)));
      var wide := WalkPaths(spans, p, kids[1..]);
      WalkOrdered(spans, r, Kids(spans, Some(k.id)));
      WalkOrdered(spans, p, kids[1..]);
      WalkHeadsOrdered(spans, p, kids, deep, wide);
      WalkOrderJoin([r], deep);
      WalkOrderJoin([r] + deep, wide);
    }
  }

  lemma WalkHeadsOrdered(spans: seq<Span>, p: Path, kids: seq<Span>, deep: seq<Path>, wide: seq<Path>)
    requires DistinctIds(spans) && IsPath(spans, p) && HangUnder(spans, kids, p) && SortedSpans(kids)
    requires |kids| > 0 && IsPath(spans, p + [kids[0]]) && HangUnder(spans, Kids(spans, Some(kids[0].id)), p + [kids[0]])
    requires deep == WalkPaths(spans, p + [kids[0]], Kids(spans, Some(kids[0].id)))
    requires wide == WalkPaths(spans, p, kids[1..])
    ensures forall q :: q in deep ==> PathLess(p + [kids[0]], q)
    ensures forall q, w :: q in [p + [kids[0]]] + deep && w in wide ==> PathLess(q, w)
  {
    var r := p + [kids[0]];
    forall q | q in deep ensures r < q {
      WalkVisits(spans, r, Kids(spans, Some(kids[0].id)), q);
    }
    forall q | q in deep ensures PathLess(r, q) {
      AncestorFirst(r, q);
    }
    forall q, w | q in [r] + deep && w in wide ensures PathLess(q, w) {
      WalkVisits(spans, p, kids[1..], w);
      assert r <= q;
      assert q[|p|] == r[|p|] == kids[0] && q[..|p|] == r[..|p|] == p == w[..|p|];
      assert w[|p|] in kids[1..];
      SiblingsPart(q, w, |p|);
    }
  }

  /** Preorder is the lexicographic order of the root paths, comparing
      siblings by start time and id. */
  lemma PreorderOrdered(spans: seq<Span>)
    requires DistinctIds(spans)
    ensures InWalkOrder(PreorderPaths(spans))
  {
    KidsMembers(spans, None);
    WalkOrdered(spans, [], Kids(spans, None));
  }

  // ---------- consequences ----------

  lemma {:induction false} TipsPointwise(ps: seq<Path>)
    requires forall p :: p in ps ==> |p| > 0
    ensures |Tips(ps)| == |ps|
    ensures forall i :: 0 <= i < |ps| ==> Tips(ps)[i] == ps[i][|ps[i]| - 1]
  {
    if |ps| > 0 {
      assert ps[0] in ps;
      TipsPointwise(ps[1..]);
    }
  }

  /** Position i of the preorder is the end of path i, a root path. */
  lemma PreorderAt(spans: seq<Span>)
    requires DistinctIds(spans)
    ensures |Preorder(spans)| == |PreorderPaths(spans)|
    ensures forall i :: 0 <= i < |PreorderPaths(spans)| ==>
              var p := PreorderPaths(spans)[i];
              IsPath(spans, p) && |p| > 0 && Preorder(spans)[i] == p[|p| - 1] && Preorder(spans)[i] in spans
  {
    var ps := PreorderPaths(spans);
    forall p | p in ps ensures IsPath(spans, p) && |p| > 0 && p[|p| - 1] in spans {
      PreorderVisits(spans, p);
      PathPrefix(spans, p, 0);
    }
    TipsPointwise(ps);
  }

  ghost predicate Reachable(spans: seq<Span>, s: Span) {
    exists p :: IsPath(spans, p) && |p| > 0 && p[|p| - 1] == s
  }

  /** The preorder holds exactly the spans a root reaches, each once. */
  lemma PreorderExact(spans: seq<Span>)
    requires DistinctIds(spans)
    ensures forall s :: s in Preorder(spans) <==> Reachable(spans, s)
    ensures DistinctIds(Preorder(spans))
  {
    hide ParentKey, IsPath, PreorderPaths, Preorder, PathLess;
    var ps, out := PreorderPaths(spans), Preorder(spans);
    PreorderAt(spans);
    PreorderOrdered(spans);
    forall s ensures s in out <==> Reachable(spans, s) {
      if Reachable(spans, s) {
        var p :| IsPath(spans, p) && |p| > 0 && p[|p| - 1] == s;
        PreorderVisits(spans, p);
        var i :| 0 <= i < |ps| && ps[i] == p;
        assert out[i] == s;
      }
    }
    forall i, j | 0 <= i < j < |out| ensures out[i].id != out[j].id {
      PathLessAsymmetric(ps[i], ps[j]);
      if out[i].id == out[j].id { PathUnique(spans, ps[i], ps[j]); }
    }
  }

  /** Every parent comes before its children. */
  lemma ParentsFirst(spans: seq<Span>, i: nat) returns (j: nat)
    requires DistinctIds(spans) && i < |Preorder(spans)| && ParentKey(spans, Preorder(spans)[i]).Some?
    ensures j < i < |Preorder(spans)| == |PreorderPaths(spans)|
    ensures Some(Preorder(spans)[j].id) == ParentKey(spans, Preorder(spans)[i])
    ensures PreorderPaths(spans)[i] == PreorderPaths(spans)[j] + [Preorder(spans)[i]]
  {
    hide ParentKey, IsPath, PreorderPaths, Preorder, PathLess;
    PreorderAt(spans);
    PreorderOrdered(spans);
    var ps := PreorderPaths(spans);
    var p := ps[i];
    var m := |p| - 1;
    PathPrefix(spans, p, m);
    PreorderVisits(spans, p[..m]);
    j :| 0 <= j < |ps| && ps[j] == p[..m];
    assert p == p[..m] + [p[m]];
    AncestorFirst(ps[j], p);
    PathLessAsymmetric(ps[j], p);
  }

  lemma PrefixConvex(p: Path, q: Path, r: Path)
    requires PathLess(p, q) && PathLess(q, r) && p <= r
    ensures p <= q
  {
    PathLessAsymmetric(q, r);
    var k: nat :| PartsAt(p, q, k);
    assert r[..k] == p[..k];
    if k < |p| { SiblingsPart(r, q, k); }
  }

  /** A subtree is one run: what lies between a span and one of its
      descendants is a descendant too. */
  lemma SubtreesContiguous(spans: seq<Span>, i: nat, j: nat, k: nat)
    requires DistinctIds(spans) && i <= j <= k < |PreorderPaths(spans)|
    requires PreorderPaths(spans)[i] <= PreorderPaths(spans)[k]
    ensures PreorderPaths(spans)[i] <= PreorderPaths(spans)[j]
  {
    PreorderOrdered(spans);
    if i < j < k {
      PrefixConvex(PreorderPaths(spans)[i], PreorderPaths(spans)[j], PreorderPaths(spans)[k]);
    }
  }

  /** Siblings come by start time, then by id. */
  lemma SiblingsOrdered(spans: seq<Span>, i: nat, j: nat)
    requires DistinctIds(spans) && i < j < |Preorder(spans)|
    requires ParentKey(spans, Preorder(spans)[i]) == ParentKey(spans, Preorder(spans)[j])
    ensures Before(Preorder(spans)[i], Preorder(spans)[j])
  {
    hide ParentKey, IsPath, PreorderPaths, Preorder;
    PreorderAt(spans);
    PreorderOrdered(spans);
    var p, q := PreorderPaths(spans)[i], PreorderPaths(spans)[j];
    var m, n := |p| - 1, |q| - 1;
    assert PathLess(p, q);
    hide PathLess;
    PathPrefix(spans, p, m);
    PathPrefix(spans, q, n);
    PathUnique(spans, p[..m], q[..n]);
    assert p == p[..m] + [p[m]];
    assert q == q[..n] + [q[n]];
    LastPart(p[..m], p[m], q[n]);
  }

  lemma LastPart(r: Path, a: Span, b: Span)
    requires PathLess(r + [a], r + [b])
    ensures Before(a, b)
  {
    var p, q := r + [a], r + [b];
    assert forall n :: 0 <= n < |r| ==> p[n] == q[n];
    var k: nat :| PartsAt(p, q, k);
  }

  // ---------- cycles ----------

  /** The ancestors of the last span of p, as far as they can be followed. */
  ghost predicate IsChain(spans: seq<Span>, p: Path) {
    && DistinctIds(p)
    && (forall k :: 0 <= k < |p| ==> p[k] in spans)
    && (forall k :: 0 < k < |p| ==> ParentKey(spans, p[k]) == Some(p[k - 1].id))
  }

  function Find(spans: seq<Span>, id: SpanId): (s: Span)
    requires HasId(spans, id)
    ensures s in spans && s.id == id
  {
    if spans[0].id == id then spans[0] else Find(spans[1..], id)
  }

  function Climb(spans: seq<Span>, p: Path): (r: Path)
    requires |p| > 0 && IsChain(spans, p)
    ensures |r| > 0 && IsChain(spans, r) && r[|r| - 1] == p[|p| - 1]
    ensures ParentKey(spans, r[0]).None? || HasId(r, ParentKey(spans, r[0]).value)
    decreases |spans| - |p|
  {
    match ParentKey(spans, p[0])
    case None => p
    case Some(id) =>
      if HasId(p, id) then p
      else
        var longer := [Find(spans, id)] + p;
        FewerIds(longer, spans);
        Climb(spans, longer)
  }

  ghost predicate CycleLinkAt(spans: seq<Span>, c: seq<Span>, k: nat)
    requires k < |c|
  {
    c[k] in spans && ParentKey(spans, c[k]) == Some(c[if k == 0 then |c| - 1 else k - 1].id)
  }

  /** Spans each hanging under the one before it, the first under the last. */
  ghost predicate IsCycle(spans: seq<Span>, c: seq<Span>) {
    |c| > 0 && forall k :: 0 <= k < |c| ==> CycleLinkAt(spans, c, k)
  }

  lemma {:induction false} PathMeetsCycle(spans: seq<Span>, p: Path, c: seq<Span>, k: nat)
    requires DistinctIds(spans) && IsPath(spans, p) && IsCycle(spans, c) && k < |p| && p[k] in c
    ensures false
  {
    hide ParentKey;
    var m :| 0 <= m < |c| && c[m] == p[k];
    var up := if m == 0 then |c| - 1 else m - 1;
    assert LinkAt(spans, p, k) && CycleLinkAt(spans, c, m) && CycleLinkAt(spans, c, up);
    if k > 0 {
      assert LinkAt(spans, p, k - 1);
      SameIdSameSpan(spans, p[k - 1], c[up]);
      PathMeetsCycle(spans, p, c, k - 1);
    }
  }

  lemma ChainIsPath(spans: seq<Span>, r: Path)
    requires |r| > 0 && IsChain(spans, r) && ParentKey(spans, r[0]) == None
    ensures IsPath(spans, r)
  {
    hide ParentKey;
    assert forall k :: 0 <= k < |r| ==> LinkAt(spans, r, k);
  }

  lemma ChainCycle(spans: seq<Span>, r: Path, k: nat)
    requires k < |r| && IsChain(spans, r) && ParentKey(spans, r[0]) == Some(r[k].id)
    ensures IsCycle(spans, r[..k + 1])
  {
    hide ParentKey;
    var c := r[..k + 1];
    assert forall m :: 0 <= m < |c| ==> CycleLinkAt(spans, c, m);
  }

  lemma ChainOutcome(spans: seq<Span>, s: Span)
    requires DistinctIds(spans) && s in spans
    ensures Reachable(spans, s) || exists c :: IsCycle(spans, c)
  {
    hide ParentKey, Climb;
    assert IsChain(spans, [s]);
    var r := Climb(spans, [s]);
    match ParentKey(spans, r[0])
    case None =>
      ChainIsPath(spans, r);
    case Some(id) =>
      var k :| 0 <= k < |r| && r[k].id == id;
      ChainCycle(spans, r, k);
  }

  lemma {:induction false} DistinctMultiset(xs: seq<Span>, s: Span)
    requires DistinctIds(xs)
    ensures multiset(xs)[s] == if s in xs then 1 else 0
  {
    if |xs| > 0 {
      DistinctMultiset(xs[1..], s);
      assert xs == [xs[0]] + xs[1..];
    }
  }

  lemma CycleUnreached(spans: seq<Span>, c: seq<Span>)
    requires DistinctIds(spans) && IsCycle(spans, c)
    ensures |c| > 0 && c[0] in spans && !Reachable(spans, c[0])
  {
    hide ParentKey;
    assert CycleLinkAt(spans, c, 0);
    if Reachable(spans, c[0]) {
      var p :| IsPath(spans, p) && |p| > 0 && p[|p| - 1] == c[0];
      PathMeetsCycle(spans, p, c, |p| - 1);
    }
  }

  lemma SameMembersSameMultiset(xs: seq<Span>, ys: seq<Span>)
    requires DistinctIds(xs) && DistinctIds(ys)
    ensures multiset(xs) == multiset(ys) <==> forall s :: s in xs <==> s in ys
  {
    forall s ensures multiset(xs)[s] == (if s in xs then 1 else 0) && multiset(ys)[s] == (if s in ys then 1 else 0) {
      DistinctMultiset(xs, s);
      DistinctMultiset(ys, s);
    }
    if multiset(xs) == multiset(ys) {
      forall s ensures s in xs <==> s in ys {
        assert multiset(xs)[s] == multiset(ys)[s];
      }
    }
  }

  lemma ReachableMember(spans: seq<Span>, s: Span)
    requires Reachable(spans, s)
    ensures s in spans
  {
    hide ParentKey;
    var p :| IsPath(spans, p) && |p| > 0 && p[|p| - 1] == s;
    assert LinkAt(spans, p, |p| - 1);
  }

  /** The preorder is a permutation of the list exactly when no parents run
      in a cycle. */
  lemma PermutationIffAcyclic(spans: seq<Span>)
    requires DistinctIds(spans)
    ensures multiset(Preorder(spans)) == multiset(spans) <==> !exists c :: IsCycle(spans, c)
  {
    hide Preorder, IsCycle, Reachable;
    PreorderExact(spans);
    SameMembersSameMultiset(Preorder(spans), spans);
    forall c | IsCycle(spans, c) ensures exists s :: s in spans && s !in Preorder(spans) {
      CycleUnreached(spans, c);
      assert c[0] in spans && c[0] !in Preorder(spans);
    }
    forall s | s in spans ensures Reachable(spans, s) || exists c :: IsCycle(spans, c) {
      ChainOutcome(spans, s);
    }
    forall s | Reachable(spans, s) ensures s in spans {
      ReachableMember(spans, s);
    }
  }
}
