/** The tree view: the visible rows, their depths and the leaders drawn before them. */
module Rows {
  import opened Spans
  import opened Forest
  import Nav

  datatype Row = Row(span: Span, depth: nat, prefix: string, hasChildren: bool)

  const PIPE: string := "\U{2502}  "
  const GAP: string := "   "
  const TEE: string := "\U{251C}\U{2500} "
  const ELBOW: string := "\U{2514}\U{2500} "

  /** The leader: one column per ancestor, then the branch of the row itself. */
  function Leader(ancestorsLast: seq<bool>): string {
    if |ancestorsLast| == 0 then ""
    else
      var k := |ancestorsLast| - 1;
      Leader(ancestorsLast[..k]) + (if ancestorsLast[k] then GAP else PIPE)
  }

  function Prefix(ancestorsLast: seq<bool>, last: bool): string {
    Leader(ancestorsLast) + (if |ancestorsLast| > 0 then if last then ELBOW else TEE else "")
  }

  /** Children in list order, as the tree view groups them. */
  function ListKids(spans: seq<Span>, key: Option<SpanId>): seq<Span> {
    Group(spans, |spans|, key)
  }

  lemma ListKidsMembers(spans: seq<Span>, key: Option<SpanId>)
    requires DistinctIds(spans)
    ensures forall s :: s in ListKids(spans, key) <==> s in spans && ParentKey(spans, s) == key
  {
    GroupMembers(spans, |spans|, key);
    assert spans[..|spans|] == spans;
  }

  function WalkRows(spans: seq<Span>, ghost p: Path, ancestorsLast: seq<bool>, kids: seq<Span>, n: nat,
                    collapsed: set<SpanId>): seq<Row>
    requires DistinctIds(spans) && IsPath(spans, p) && HangUnder(spans, kids, p)
    requires n <= |kids|
    decreases |spans| - |p|, |kids| - n
  {
    if n == |kids| then []
    else
      var s := kids[n];
      assert s in kids;
      PathExtends(spans, p, s);
      ListKidsMembers(spans, Some(s.id));
      var last := n == |kids| - 1;
      var below := ListKids(spans, Some(s.id));
      var row := Row(s, |ancestorsLast|, Prefix(ancestorsLast, last), |below| > 0);
      [row]
      + (if |below| > 0 && s.id !in collapsed then WalkRows(spans, p + [s], ancestorsLast + [last], below, 0, collapsed)
         else [])
      + WalkRows(spans, p, ancestorsLast, kids, n + 1, collapsed)
  }

  function SpanRows(spans: seq<Span>, collapsed: set<SpanId>): seq<Row>
    requires DistinctIds(spans)
  {
    ListKidsMembers(spans, None);
    WalkRows(spans, [], [], ListKids(spans, None), 0, collapsed)
  }

  // ---------- the walk as it is run ----------

  class RowBuilder {
    const spans: seq<Span>
    const collapsed: set<SpanId>
    const children: map<Option<SpanId>, seq<Span>>
    var out: seq<Row>

    constructor (spans: seq<Span>, collapsed: set<SpanId>, children: map<Option<SpanId>, seq<Span>>)
      ensures this.spans == spans && this.collapsed == collapsed && this.children == children && out == []
    {
      this.spans, this.collapsed, this.children, out := spans, collapsed, children, [];
    }

    method Walk(parent: Option<SpanId>, ghost p: Path, ancestorsLast: seq<bool>)
      requires DistinctIds(spans) && Groups(children, spans)
      requires IsPath(spans, p) && HangUnder(spans, ListKids(spans, parent), p)
      modifies this`out
      ensures out == old(out) + WalkRows(spans, p, ancestorsLast, ListKids(spans, parent), 0, collapsed)
      decreases |spans| - |p|
    {
      hide ListKids, IsPath, ParentKey, Prefix, WalkRows;
      var kids := if parent in children then children[parent] else [];
      var n := 0;
      while n < |kids|
        invariant n <= |kids|
        invariant out + WalkRows(spans, p, ancestorsLast, kids, n, collapsed)
               == old(out) + WalkRows(spans, p, ancestorsLast, kids, 0, collapsed)
      {
        var s := kids[n];
        ghost var before := out;
        assert s in kids;
        PathExtends(spans, p, s);
        ListKidsMembers(spans, Some(s.id));
        var last := n == |kids| - 1;
        var below := if Some(s.id) in children then children[Some(s.id)] else [];
        var hasChildren := |below| > 0;
        var row := Row(s, |ancestorsLast|, Prefix(ancestorsLast, last), hasChildren);
        out := out + [row];
        if hasChildren && s.id !in collapsed {
          Walk(Some(s.id), p + [s], ancestorsLast + [last]);
        }
        TurnRows(spans, p, ancestorsLast, kids, n, collapsed);
        ghost var deep := if hasChildren && s.id !in collapsed
          then WalkRows(spans, p + [s], ancestorsLast + [last], ListKids(spans, Some(s.id)), 0, collapsed) else [];
        Absorb(before, row, deep, WalkRows(spans, p, ancestorsLast, kids, n + 1, collapsed));
        n := n + 1;
      }
      NothingLeft(spans, p, ancestorsLast, kids, out, collapsed);
    }
  }

  lemma TurnRows(spans: seq<Span>, p: Path, flags: seq<bool>, kids: seq<Span>, n: nat, collapsed: set<SpanId>)
    requires DistinctIds(spans) && IsPath(spans, p) && HangUnder(spans, kids, p) && n < |kids|
    requires IsPath(spans, p + [kids[n]]) && HangUnder(spans, ListKids(spans, Some(kids[n].id)), p + [kids[n]])
    ensures var s, last, below := kids[n], n == |kids| - 1, ListKids(spans, Some(kids[n].id));
            WalkRows(spans, p, flags, kids, n, collapsed) ==
              [Row(s, |flags|, Prefix(flags, last), |below| > 0)]
              + (if |below| > 0 && s.id !in collapsed
                 then WalkRows(spans, p + [s], flags + [last], below, 0, collapsed) else [])
              + WalkRows(spans, p, flags, kids, n + 1, collapsed)
  {}

  lemma NothingLeft(spans: seq<Span>, p: Path, flags: seq<bool>, kids: seq<Span>, out: seq<Row>, collapsed: set<SpanId>)
    requires DistinctIds(spans) && IsPath(spans, p) && HangUnder(spans, kids, p)
    ensures out + WalkRows(spans, p, flags, kids, |kids|, collapsed) == out
  {}

  ghost predicate Groups(m: map<Option<SpanId>, seq<Span>>, spans: seq<Span>) {
    forall key :: (if key in m then m[key] else []) == ListKids(spans, key)
  }

  method BuildSpanRows(spans: seq<Span>, collapsed: set<SpanId>) returns (out: seq<Row>)
    requires DistinctIds(spans)
    ensures out == SpanRows(spans, collapsed)
  {
    var childrenOf: map<Option<SpanId>, seq<Span>> := map[];
    var i := 0;
    while i < |spans|
      invariant i <= |spans|
      invariant forall key :: (if key in childrenOf then childrenOf[key] else []) == Group(spans, i, key)
    {
      var key := ParentKey(spans, spans[i]);
      var bucket := if key in childrenOf then childrenOf[key] else [];
      childrenOf := childrenOf[key := bucket + [spans[i]]];
      i := i + 1;
    }
    var b := new RowBuilder(spans, collapsed, childrenOf);
    ListKidsMembers(spans, None);
    b.Walk(None, [], []);
    out := b.out;
  }

  // ---------- rows and root paths ----------

  /** The k-th span of the path is the last of its siblings. */
  predicate IsLast(spans: seq<Span>, p: Path, k: nat)
    requires k < |p|
  {
    var kids := Kids(spans, Above(p, k));
    |kids| > 0 && kids[|kids| - 1] == p[k]
  }

  function LastFlags(spans: seq<Span>, p: Path): (r: seq<bool>)
    ensures |r| == |p|
  {
    seq(|p|, k requires 0 <= k < |p| => IsLast(spans, p, k))
  }

  function RowOf(spans: seq<Span>, p: Path): Row
    requires |p| > 0
  {
    var k := |p| - 1;
    Row(p[k], k, Prefix(LastFlags(spans, p[..k]), IsLast(spans, p, k)), |Kids(spans, Some(p[k].id))| > 0)
  }

  predicate Visible(p: Path, collapsed: set<SpanId>) {
    |p| > 0 && forall k :: 0 <= k < |p| - 1 ==> p[k].id !in collapsed
  }

  function VisiblePaths(ps: seq<Path>, collapsed: set<SpanId>): (r: seq<Path>)
    ensures forall p :: p in r <==> p in ps && Visible(p, collapsed)
  {
    if |ps| == 0 then []
    else if Visible(ps[0], collapsed) then [ps[0]] + VisiblePaths(ps[1..], collapsed)
    else VisiblePaths(ps[1..], collapsed)
  }

  function RowsOf(spans: seq<Span>, ps: seq<Path>): seq<Row>
    requires forall p :: p in ps ==> |p| > 0
  {
    if |ps| == 0 then [] else [RowOf(spans, ps[0])] + RowsOf(spans, ps[1..])
  }

  lemma {:induction false} VisibleJoin(a: seq<Path>, b: seq<Path>, collapsed: set<SpanId>)
    ensures VisiblePaths(a + b, collapsed) == VisiblePaths(a, collapsed) + VisiblePaths(b, collapsed)
  {
    if |a| == 0 {
      assert a + b == b;
    } else {
      VisibleJoin(a[1..], b, collapsed);
      assert (a + b)[1..] == a[1..] + b;
    }
  }

  lemma {:induction false} RowsJoin(spans: seq<Span>, a: seq<Path>, b: seq<Path>)
    requires forall p :: p in a + b ==> |p| > 0
    requires (forall p :: p in a ==> |p| > 0) && (forall p :: p in b ==> |p| > 0)
    ensures RowsOf(spans, a + b) == RowsOf(spans, a) + RowsOf(spans, b)
  {
    hide RowOf;
    var c := a + b;
    if |a| == 0 {
      assert c == b;
    } else {
      assert c[0] == a[0] && c[1..] == a[1..] + b;
      RowsJoin(spans, a[1..], b);
      var x := RowOf(spans, a[0]);
      assert RowsOf(spans, c) == [x] + RowsOf(spans, c[1..]);
      assert [x] + (RowsOf(spans, a[1..]) + RowsOf(spans, b)) == ([x] + RowsOf(spans, a[1..])) + RowsOf(spans, b);
    }
  }

  lemma {:induction false} InsertFirst(s: Span, xs: seq<Span>)
    requires SortedSpans([s] + xs)
    ensures InsertSpan(s, xs) == [s] + xs
  {
    if |xs| > 0 { assert Before(([s] + xs)[0], ([s] + xs)[1]); }
  }

  lemma {:induction false} SortedStays(xs: seq<Span>)
    requires SortedSpans(xs)
    ensures SortSpans(xs) == xs
  {
    if |xs| > 0 {
      SortedStays(xs[1..]);
      assert xs == [xs[0]] + xs[1..];
      InsertFirst(xs[0], xs[1..]);
    }
  }

  lemma {:induction false} GroupSorted(spans: seq<Span>, n: nat, key: Option<SpanId>)
    requires n <= |spans| && DistinctIds(spans) && SortedSpans(spans)
    ensures SortedSpans(Group(spans, n, key))
  {
    hide ParentKey;
    if n > 0 {
      GroupSorted(spans, n - 1, key);
      GroupMembers(spans, n - 1, key);
      var g := Group(spans, n - 1, key);
      forall k | 0 <= k < |g| ensures Before(g[k], spans[n - 1]) {
        assert g[k] in spans[..n - 1];
      }
    }
  }

  /** In store order the list order of siblings is their sorted order. */
  lemma ListKidsSorted(spans: seq<Span>, key: Option<SpanId>)
    requires DistinctIds(spans) && SortedSpans(spans)
    ensures ListKids(spans, key) == Kids(spans, key)
  {
    GroupSorted(spans, |spans|, key);
    SortedStays(Group(spans, |spans|, key));
  }

  /** The rows of the walk are those of the visible root paths it visits. */
  lemma {:induction false} WalkRowsVisible(spans: seq<Span>, p: Path, kids: seq<Span>, n: nat, collapsed: set<SpanId>)
    requires DistinctIds(spans) && SortedSpans(spans)
    requires IsPath(spans, p) && HangUnder(spans, kids, p) && kids == Kids(spans, Tip(p)) && n <= |kids|
    requires forall k :: 0 <= k < |p| ==> p[k].id !in collapsed
    ensures WalkRows(spans, p, LastFlags(spans, p), kids, n, collapsed)
         == RowsOf(spans, VisiblePaths(WalkPaths(spans, p, kids[n..]), collapsed))
    decreases |spans| - |p|, |kids| - n
  {
    hide Kids, ListKids, ParentKey, IsPath, WalkPaths, WalkRows, RowOf, Visible;
    if n == |kids| {
      NothingBelow(spans, p, kids[n..], collapsed);
      NothingLeft(spans, p, LastFlags(spans, p), kids, [], collapsed);
    } else {
      var s, rest := kids[n], kids[n..];
      assert s in kids && rest[0] == s && rest[1..] == kids[n + 1..];
      var q := p + [s];
      PathExtends(spans, p, s);
      KidsMembers(spans, Some(s.id));
      ListKidsSorted(spans, Some(s.id));
      ListKidsMembers(spans, Some(s.id));
      var below := Kids(spans, Some(s.id));
      assert below[0..] == below;
      TurnRows(spans, p, LastFlags(spans, p), kids, n, collapsed);
      FlagsExtend(spans, p, kids, n);
      HeadVisible(p, s, collapsed);
      WalkRowsVisible(spans, p, kids, n + 1, collapsed);
      if s.id !in collapsed {
        WalkRowsVisible(spans, q, below, 0, collapsed);
        if |below| == 0 { NothingBelow(spans, q, below, collapsed); }
      } else {
        NothingVisible(spans, q, below, collapsed);
      }
      VisibleTurn(spans, p, rest, collapsed);
    }
  }

  lemma NothingBelow(spans: seq<Span>, p: Path, kids: seq<Span>, collapsed: set<SpanId>)
    requires DistinctIds(spans) && IsPath(spans, p) && HangUnder(spans, kids, p) && |kids| == 0
    ensures WalkPaths(spans, p, kids) == [] && RowsOf(spans, VisiblePaths(WalkPaths(spans, p, kids), collapsed)) == []
  {}

  lemma FlagsExtend(spans: seq<Span>, p: Path, kids: seq<Span>, n: nat)
    requires DistinctIds(spans) && kids == Kids(spans, Tip(p)) && n < |kids|
    ensures LastFlags(spans, p + [kids[n]]) == LastFlags(spans, p) + [n == |kids| - 1]
    ensures RowOf(spans, p + [kids[n]]) ==
              Row(kids[n], |p|, Prefix(LastFlags(spans, p), n == |kids| - 1), |Kids(spans, Some(kids[n].id))| > 0)
  {
    hide Kids, Prefix;
    var q := p + [kids[n]];
    KidsMembers(spans, Tip(p));
    assert q[..|p|] == p;
    forall k | 0 <= k < |p| ensures IsLast(spans, q, k) == IsLast(spans, p, k) {
      assert Above(q, k) == Above(p, k);
    }
    assert Above(q, |p|) == Tip(p);
    assert n < |kids| - 1 ==> Before(kids[n], kids[|kids| - 1]);
    assert IsLast(spans, q, |p|) <==> n == |kids| - 1;
  }

  lemma HeadVisible(p: Path, s: Span, collapsed: set<SpanId>)
    requires forall k :: 0 <= k < |p| ==> p[k].id !in collapsed
    ensures Visible(p + [s], collapsed)
  {}

  /** Nothing below a collapsed span is visible. */
  lemma NothingVisible(spans: seq<Span>, q: Path, kids: seq<Span>, collapsed: set<SpanId>)
    requires DistinctIds(spans) && IsPath(spans, q) && HangUnder(spans, kids, q)
    requires |q| > 0 && q[|q| - 1].id in collapsed
    ensures VisiblePaths(WalkPaths(spans, q, kids), collapsed) == []
  {
    hide WalkPaths, IsPath, VisiblePaths;
    forall w | w in WalkPaths(spans, q, kids) ensures !Visible(w, collapsed) {
      WalkVisits(spans, q, kids, w);
      assert w[|q| - 1] == q[|q| - 1];
    }
    AllHidden(WalkPaths(spans, q, kids), collapsed);
  }

  lemma {:induction false} AllHidden(ps: seq<Path>, collapsed: set<SpanId>)
    requires forall p :: p in ps ==> !Visible(p, collapsed)
    ensures VisiblePaths(ps, collapsed) == []
  {
    if |ps| > 0 {
      assert ps[0] in ps;
      AllHidden(ps[1..], collapsed);
    }
  }

  lemma VisibleTurn(spans: seq<Span>, p: Path, kids: seq<Span>, collapsed: set<SpanId>)
    requires DistinctIds(spans) && IsPath(spans, p) && HangUnder(spans, kids, p) && |kids| > 0
    requires IsPath(spans, p + [kids[0]]) && HangUnder(spans, Kids(spans, Some(kids[0].id)), p + [kids[0]])
    requires Visible(p + [kids[0]], collapsed)
    ensures var q := p + [kids[0]];
            var deep := VisiblePaths(WalkPaths(spans, q, Kids(spans, Some(kids[0].id))), collapsed);
            var wide := VisiblePaths(WalkPaths(spans, p, kids[1..]), collapsed);
            RowsOf(spans, VisiblePaths(WalkPaths(spans, p, kids), collapsed))
              == [RowOf(spans, q)] + RowsOf(spans, deep) + RowsOf(spans, wide)
  {
    hide Kids, IsPath, RowOf, Visible, ParentKey;
    var q := p + [kids[0]];
    var a, b := WalkPaths(spans, q, Kids(spans, Some(kids[0].id))), WalkPaths(spans, p, kids[1..]);
    assert WalkPaths(spans, p, kids) == [q] + a + b;
    VisibleJoin([q] + a, b, collapsed);
    VisibleJoin([q], a, collapsed);
    assert VisiblePaths([q], collapsed) == [q];
    var deep, wide := VisiblePaths(a, collapsed), VisiblePaths(b, collapsed);
    VisibleNonEmpty(a, collapsed);
    VisibleNonEmpty(b, collapsed);
    RowsJoin(spans, [q] + deep, wide);
    RowsJoin(spans, [q], deep);
    assert RowsOf(spans, [q]) == [RowOf(spans, q)];
  }

  lemma VisibleNonEmpty(ps: seq<Path>, collapsed: set<SpanId>)
    ensures forall p :: p in VisiblePaths(ps, collapsed) ==> |p| > 0
  {}

  /** On spans in store order, the rows are exactly the preorder spans with no
      collapsed proper ancestor, each with its depth, leader and marker. */
  lemma RowsAreVisiblePreorder(spans: seq<Span>, collapsed: set<SpanId>)
    requires DistinctIds(spans) && SortedSpans(spans)
    ensures SpanRows(spans, collapsed) == RowsOf(spans, VisiblePaths(PreorderPaths(spans), collapsed))
  {
    hide Kids, ListKids, WalkPaths, WalkRows;
    ListKidsSorted(spans, None);
    KidsMembers(spans, None);
    var kids := Kids(spans, None);
    assert kids[0..] == kids;
    WalkRowsVisible(spans, [], kids, 0, collapsed);
    assert LastFlags(spans, []) == [];
  }

  // ---------- reading the tree back ----------

  lemma {:induction false} RowsPointwise(spans: seq<Span>, ps: seq<Path>)
    requires forall p :: p in ps ==> |p| > 0
    ensures |RowsOf(spans, ps)| == |ps|
    ensures forall i :: 0 <= i < |ps| ==> RowsOf(spans, ps)[i] == RowOf(spans, ps[i])
  {
    hide RowOf;
    if |ps| > 0 { RowsPointwise(spans, ps[1..]); }
  }

  lemma {:induction false} VisibleOrdered(ps: seq<Path>, collapsed: set<SpanId>)
    requires InWalkOrder(ps)
    ensures InWalkOrder(VisiblePaths(ps, collapsed))
  {
    hide PathLess;
    if |ps| > 0 {
      VisibleOrdered(ps[1..], collapsed);
      forall q | q in VisiblePaths(ps[1..], collapsed) ensures PathLess(ps[0], q) {
        var k :| 0 <= k < |ps[1..]| && ps[1..][k] == q;
        assert PathLess(ps[0], ps[k + 1]);
      }
    }
  }

  /** The root path behind each row. */
  function RowPaths(spans: seq<Span>, collapsed: set<SpanId>): seq<Path>
    requires DistinctIds(spans)
  {
    VisiblePaths(PreorderPaths(spans), collapsed)
  }

  lemma RowAt(spans: seq<Span>, collapsed: set<SpanId>)
    requires DistinctIds(spans) && SortedSpans(spans)
    ensures InWalkOrder(RowPaths(spans, collapsed))
    ensures |SpanRows(spans, collapsed)| == |RowPaths(spans, collapsed)|
    ensures forall i :: 0 <= i < |RowPaths(spans, collapsed)| ==>
              var p := RowPaths(spans, collapsed)[i];
              IsPath(spans, p) && Visible(p, collapsed) && SpanRows(spans, collapsed)[i] == RowOf(spans, p)
  {
    hide PreorderPaths, SpanRows, RowOf, PathLess, IsPath;
    RowsAreVisiblePreorder(spans, collapsed);
    PreorderOrdered(spans);
    VisibleOrdered(PreorderPaths(spans), collapsed);
    var ps := RowPaths(spans, collapsed);
    RowsPointwise(spans, ps);
    forall i | 0 <= i < |ps| ensures IsPath(spans, ps[i]) && Visible(ps[i], collapsed) {
      assert ps[i] in ps;
      PreorderVisits(spans, ps[i]);
    }
  }

  /** The depth of a row is the length of the ancestor chain, minus one. */
  lemma DepthIsChainLength(spans: seq<Span>, collapsed: set<SpanId>, i: nat)
    requires DistinctIds(spans) && SortedSpans(spans) && i < |SpanRows(spans, collapsed)|
    ensures var row := SpanRows(spans, collapsed)[i];
            row.depth == |Nav.PathTo(spans, row.span.id)| - 1
  {
    RowAt(spans, collapsed);
    Nav.PathToIsRootPath(spans, RowPaths(spans, collapsed)[i]);
  }

  /** The nearest row above row i, among the first k, that is one level up. */
  function OneLevelUp(rows: seq<Row>, i: nat, k: nat): (r: Option<nat>)
    requires k <= i < |rows|
    ensures r.Some? ==> r.value < k
  {
    if k == 0 then None
    else if rows[k - 1].depth + 1 == rows[i].depth then Some(k - 1)
    else OneLevelUp(rows, i, k - 1)
  }

  lemma {:induction false} OneLevelUpIs(rows: seq<Row>, i: nat, j: nat, k: nat)
    requires j < k <= i < |rows| && rows[j].depth + 1 == rows[i].depth
    requires forall m :: j < m < i ==> rows[m].depth + 1 != rows[i].depth
    ensures OneLevelUp(rows, i, k) == Some(j)
  {
    if j < k - 1 { OneLevelUpIs(rows, i, j, k - 1); }
  }

  lemma {:induction false} NoLevelUp(rows: seq<Row>, i: nat, k: nat)
    requires k <= i < |rows| && rows[i].depth == 0
    ensures OneLevelUp(rows, i, k) == None
  {
    if k > 0 { NoLevelUp(rows, i, k - 1); }
  }

  /** The depth column alone tells the forest: the parent of a row is the
      nearest row above it that is one level up, whatever is collapsed. */
  lemma DepthsDecode(spans: seq<Span>, collapsed: set<SpanId>, i: nat)
    requires DistinctIds(spans) && SortedSpans(spans) && i < |SpanRows(spans, collapsed)|
    ensures var rows := SpanRows(spans, collapsed);
            match OneLevelUp(rows, i, i)
            case None => ParentKey(spans, rows[i].span) == None
            case Some(j) => ParentKey(spans, rows[i].span) == Some(rows[j].span.id)
  {
    hide IsPath, ParentKey, RowPaths, SpanRows, LastFlags, IsLast, Prefix, Kids;
    RowAt(spans, collapsed);
    var rows, ps := SpanRows(spans, collapsed), RowPaths(spans, collapsed);
    var m := |ps[i]| - 1;
    PathPrefix(spans, ps[i], m);
    if m == 0 {
      NoLevelUp(rows, i, i);
    } else {
      var j := PathOneUp(spans, collapsed, i);
      OneLevelUpIs(rows, i, j, i);
    }
  }

  lemma PathOneUp(spans: seq<Span>, collapsed: set<SpanId>, i: nat) returns (j: nat)
    requires DistinctIds(spans) && SortedSpans(spans)
    requires i < |RowPaths(spans, collapsed)| && |RowPaths(spans, collapsed)[i]| > 1
    ensures var ps := RowPaths(spans, collapsed);
            && j < i && ps[j] == ps[i][..|ps[i]| - 1]
            && forall k :: j < k < i ==> |ps[k]| >= |ps[i]|
  {
    hide IsPath, PathLess, PreorderPaths, SpanRows, RowOf;
    RowAt(spans, collapsed);
    var ps := RowPaths(spans, collapsed);
    var p := ps[i];
    var m := |p| - 1;
    PathPrefix(spans, p, m);
    var q := p[..m];
    assert p == q + [p[m]];
    assert Visible(q, collapsed);
    PreorderVisits(spans, q);
    j :| 0 <= j < |ps| && ps[j] == q;
    AncestorFirst(q, p);
    PathLessAsymmetric(q, p);
    forall k | j < k < i ensures |ps[k]| >= |p| {
      PrefixConvex(q, ps[k], p);
      PathLessAsymmetric(q, ps[k]);
      assert ps[k][..|q|] == q && ps[k][..|ps[k]|] == ps[k];
    }
  }

  lemma {:induction false} SameLevelsUp(xs: seq<Row>, ys: seq<Row>, i: nat, k: nat)
    requires |xs| == |ys| && k <= i < |xs| && forall j :: 0 <= j <= i ==> xs[j].depth == ys[j].depth
    ensures OneLevelUp(xs, i, k) == OneLevelUp(ys, i, k)
  {
    if k > 0 { SameLevelsUp(xs, ys, i, k - 1); }
  }

  lemma {:induction false} LeaderLength(flags: seq<bool>)
    ensures |Leader(flags)| == 3 * |flags|
  {
    if |flags| > 0 { LeaderLength(flags[..|flags| - 1]); }
  }

  lemma {:induction false} LeaderDecodes(f: seq<bool>, g: seq<bool>)
    requires Leader(f) == Leader(g)
    ensures f == g
  {
    LeaderLength(f);
    LeaderLength(g);
    if |f| > 0 {
      var k := |f| - 1;
      LeaderLength(f[..k]);
      LeaderLength(g[..k]);
      assert Leader(f)[..3 * k] == Leader(f[..k]) && Leader(g)[..3 * k] == Leader(g[..k]);
      assert Leader(f)[3 * k] == (if f[k] then GAP else PIPE)[0];
      assert Leader(g)[3 * k] == (if g[k] then GAP else PIPE)[0];
      LeaderDecodes(f[..k], g[..k]);
      assert f == f[..k] + [f[k]] && g == g[..k] + [g[k]];
    }
  }

  /** The prefix column tells the depth, which ancestors end their sibling
      lists and, below the roots, whether the row itself does. */
  lemma PrefixDecodes(f: seq<bool>, last: bool, g: seq<bool>, end: bool)
    requires Prefix(f, last) == Prefix(g, end)
    ensures f == g && (|f| > 0 ==> last == end)
  {
    LeaderLength(f);
    LeaderLength(g);
    var x, y := Prefix(f, last), Prefix(g, end);
    assert x[..3 * |f|] == Leader(f) && y[..3 * |g|] == Leader(g);
    assert |x| == if |f| > 0 then 3 * |f| + 3 else 0;
    assert |y| == if |g| > 0 then 3 * |g| + 3 else 0;
    LeaderDecodes(f, g);
    if |f| > 0 {
      assert x[3 * |f|] == (if last then ELBOW else TEE)[0];
      assert y[3 * |f|] == (if end then ELBOW else TEE)[0];
    }
  }

  /** The position of the parent row, which every row but a root's has. */
  ghost predicate ParentRow(spans: seq<Span>, rows: seq<Row>, i: nat, parent: Option<nat>)
    requires i < |rows|
  {
    match parent
    case None => ParentKey(spans, rows[i].span) == None
    case Some(j) => j < i && ParentKey(spans, rows[i].span) == Some(rows[j].span.id)
  }

  lemma PrefixDepths(spans: seq<Span>, collapsed: set<SpanId>, others: seq<Span>, hidden: set<SpanId>, i: nat)
    requires DistinctIds(spans) && SortedSpans(spans) && DistinctIds(others) && SortedSpans(others)
    requires i < |SpanRows(spans, collapsed)| && i < |SpanRows(others, hidden)|
    requires SpanRows(spans, collapsed)[i].prefix == SpanRows(others, hidden)[i].prefix
    ensures SpanRows(spans, collapsed)[i].depth == SpanRows(others, hidden)[i].depth
  {
    hide SpanRows, RowPaths, IsPath, PathLess, IsLast, Prefix, Kids, LastFlags;
    RowAt(spans, collapsed);
    RowAt(others, hidden);
    var p, q := RowPaths(spans, collapsed)[i], RowPaths(others, hidden)[i];
    var k, m := |p| - 1, |q| - 1;
    PrefixDecodes(LastFlags(spans, p[..k]), IsLast(spans, p, k), LastFlags(others, q[..m]), IsLast(others, q, m));
  }

  /** The prefix column alone tells the forest: two row lists with the same
      prefixes, whatever spans they show and whatever is collapsed, have their
      parents at the same positions. */
  lemma PrefixColumnDecodes(spans: seq<Span>, collapsed: set<SpanId>, others: seq<Span>, hidden: set<SpanId>)
    requires DistinctIds(spans) && SortedSpans(spans) && DistinctIds(others) && SortedSpans(others)
    requires var xs, ys := SpanRows(spans, collapsed), SpanRows(others, hidden);
             |xs| == |ys| && forall i :: 0 <= i < |xs| ==> xs[i].prefix == ys[i].prefix
    ensures var xs, ys := SpanRows(spans, collapsed), SpanRows(others, hidden);
            forall i :: 0 <= i < |xs| ==>
              && xs[i].depth == ys[i].depth
              && OneLevelUp(xs, i, i) == OneLevelUp(ys, i, i)
              && ParentRow(spans, xs, i, OneLevelUp(xs, i, i)) && ParentRow(others, ys, i, OneLevelUp(xs, i, i))
  {
    hide SpanRows, ParentKey, OneLevelUp;
    var xs, ys := SpanRows(spans, collapsed), SpanRows(others, hidden);
    forall i | 0 <= i < |xs| ensures xs[i].depth == ys[i].depth {
      PrefixDepths(spans, collapsed, others, hidden, i);
    }
    forall i | 0 <= i < |xs|
      ensures OneLevelUp(xs, i, i) == OneLevelUp(ys, i, i)
      ensures ParentRow(spans, xs, i, OneLevelUp(xs, i, i)) && ParentRow(others, ys, i, OneLevelUp(xs, i, i))
    {
      SameLevelsUp(xs, ys, i, i);
      DepthsDecode(spans, collapsed, i);
      DepthsDecode(others, hidden, i);
    }
  }

  // ---------- what the prefix draws ----------

  /** No sibling starts later. */
  ghost predicate LastSibling(spans: seq<Span>, s: Span) {
    forall t :: t in spans && t != s && ParentKey(spans, t) == ParentKey(spans, s) ==> Before(t, s)
  }

  lemma LastOfSorted(kids: seq<Span>, s: Span)
    requires SortedSpans(kids) && s in kids
    ensures kids[|kids| - 1] == s <==> forall t :: t in kids && t != s ==> Before(t, s)
  {
    var k :| 0 <= k < |kids| && kids[k] == s;
    if k < |kids| - 1 {
      assert kids[|kids| - 1] in kids && Before(s, kids[|kids| - 1]);
    }
  }

  lemma IsLastSibling(spans: seq<Span>, p: Path, k: nat)
    requires DistinctIds(spans) && IsPath(spans, p) && k < |p|
    ensures IsLast(spans, p, k) <==> LastSibling(spans, p[k])
  {
    hide Kids, ParentKey, Before;
    PathPrefix(spans, p, k);
    KidsMembers(spans, Above(p, k));
    LastOfSorted(Kids(spans, Above(p, k)), p[k]);
  }

  lemma {:induction false} LeaderColumn(flags: seq<bool>, j: nat)
    requires j < |flags|
    ensures |Leader(flags)| == 3 * |flags|
    ensures Leader(flags)[3 * j..3 * j + 3] == if flags[j] then "   " else "\U{2502}  "
  {
    LeaderLength(flags);
    var k := |flags| - 1;
    LeaderLength(flags[..k]);
    if j < k {
      LeaderColumn(flags[..k], j);
      assert Leader(flags)[..3 * k] == Leader(flags[..k]);
      assert Leader(flags)[3 * j..3 * j + 3] == Leader(flags)[..3 * k][3 * j..3 * j + 3];
    } else {
      assert Leader(flags)[3 * k..3 * k + 3] == if flags[k] then GAP else PIPE;
    }
  }

  lemma BranchColumn(flags: seq<bool>, last: bool)
    ensures |flags| == 0 ==> Prefix(flags, last) == ""
    ensures |flags| > 0 ==>
              var x, n := Prefix(flags, last), 3 * |flags|;
              |x| == n + 3 && x[..n] == Leader(flags)
              && x[n..] == if last then "\U{2514}\U{2500} " else "\U{251C}\U{2500} "
  {
    LeaderLength(flags);
  }

  /** The prefix of a row draws nothing for a root. Below it, each ancestor has a
      column, empty if it is a last sibling and else a bar; then comes a corner if
      the row's span is a last sibling and else a tee. */
  lemma PrefixShows(spans: seq<Span>, collapsed: set<SpanId>, i: nat)
    requires DistinctIds(spans) && SortedSpans(spans) && i < |SpanRows(spans, collapsed)|
    ensures var row := SpanRows(spans, collapsed)[i];
            var chain, k := Nav.PathTo(spans, row.span.id), row.depth;
            && |chain| == k + 1 && chain[k] == row.span
            && (k == 0 ==> row.prefix == "")
            && (k > 0 ==>
                  && |row.prefix| == 3 * k + 3
                  && row.prefix[3 * k..] ==
                       (if LastSibling(spans, row.span) then "\U{2514}\U{2500} " else "\U{251C}\U{2500} ")
                  && forall j :: 0 <= j < k ==>
                       row.prefix[3 * j..3 * j + 3] == if LastSibling(spans, chain[j]) then "   " else "\U{2502}  ")
  {
    hide Kids, ParentKey, SpanRows, Prefix, Leader, IsLast, LastSibling, RowPaths, IsPath;
    RowAt(spans, collapsed);
    var row, p := SpanRows(spans, collapsed)[i], RowPaths(spans, collapsed)[i];
    Nav.PathToIsRootPath(spans, p);
    PathPrefixShows(spans, p);
  }

  lemma PathPrefixShows(spans: seq<Span>, p: Path)
    requires DistinctIds(spans) && IsPath(spans, p) && |p| > 0
    ensures var k, x := |p| - 1, RowOf(spans, p).prefix;
            && (k == 0 ==> x == "")
            && (k > 0 ==>
                  && |x| == 3 * k + 3
                  && x[3 * k..] == (if LastSibling(spans, p[k]) then "\U{2514}\U{2500} " else "\U{251C}\U{2500} ")
                  && forall j :: 0 <= j < k ==>
                       x[3 * j..3 * j + 3] == if LastSibling(spans, p[j]) then "   " else "\U{2502}  ")
  {
    hide Kids, Prefix, Leader, IsPath, LastSibling;
    var k := |p| - 1;
    var flags, x := LastFlags(spans, p[..k]), RowOf(spans, p).prefix;
    IsLastSibling(spans, p, k);
    BranchColumn(flags, IsLast(spans, p, k));
    forall j | 0 <= j < k ensures x[3 * j..3 * j + 3] == if LastSibling(spans, p[j]) then "   " else "\U{2502}  " {
      IsLastSibling(spans, p, j);
      assert Above(p[..k], j) == Above(p, j) && p[..k][j] == p[j];
      LeaderColumn(flags, j);
      assert x[3 * j..3 * j + 3] == x[..3 * k][3 * j..3 * j + 3];
    }
  }
}
