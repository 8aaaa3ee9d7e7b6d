/** Spans opened and closed like brackets start in preorder, so the browser's and the desktop's diff agree. */
module Nesting {
  import opened Spans
  import opened Closings
  import opened Forest
  import opened Recording
  import opened Replay
  import Diff
  import Ingest

  /** When row k starts, the first n spans of the stack before it are still open
      and it opens inside the last of them. */
  ghost predicate Opens(rows: seq<Span>, stacks: seq<Path>, k: nat, n: nat)
    requires 0 < k < |rows| == |stacks|
  {
    && 1 <= n <= |stacks[k - 1]| && stacks[k] == stacks[k - 1][..n] + [rows[k]]
    && rows[k].parent == Some(stacks[k - 1][n - 1].id)
  }

  ghost predicate OpensInside(rows: seq<Span>, stacks: seq<Path>, k: nat)
    requires 0 < k < |rows| == |stacks|
  {
    exists n: nat :: Opens(rows, stacks, k, n)
  }

  /** stacks[k] holds the spans that are open once row k has started. */
  ghost predicate Stacked(rows: seq<Span>, stacks: seq<Path>) {
    && |stacks| == |rows| > 0 && stacks[0] == [rows[0]] && rows[0].parent == None
    && forall k :: 0 < k < |rows| ==> OpensInside(rows, stacks, k)
  }

  /** The rows were started under a stack of open spans. */
  ghost predicate Nested(rows: seq<Span>) {
    exists stacks :: Stacked(rows, stacks)
  }

  /** The stack after row k: rows up to k, ending with row k. */
  lemma {:induction false} StackHolds(rows: seq<Span>, stacks: seq<Path>, k: nat)
    requires Stacked(rows, stacks) && k < |rows|
    ensures |stacks[k]| > 0 && stacks[k][|stacks[k]| - 1] == rows[k]
    ensures forall i :: 0 <= i < |stacks[k]| ==> exists j :: 0 <= j <= k && rows[j] == stacks[k][i]
  {
    if k > 0 {
      StackHolds(rows, stacks, k - 1);
      assert OpensInside(rows, stacks, k);
      var n: nat :| Opens(rows, stacks, k, n);
    }
  }

  lemma StackRow(rows: seq<Span>, stacks: seq<Path>, k: nat, i: nat) returns (j: nat)
    requires Stacked(rows, stacks) && k < |rows| && i < |stacks[k]|
    ensures j <= k && rows[j] == stacks[k][i]
  {
    StackHolds(rows, stacks, k);
    j :| 0 <= j <= k && rows[j] == stacks[k][i];
  }

  lemma {:induction false} StackIsPath(rows: seq<Span>, stacks: seq<Path>, k: nat)
    requires DistinctIds(rows) && Stacked(rows, stacks) && k < |rows|
    ensures IsPath(rows, stacks[k])
  {
    hide ParentKey, IsPath;
    if k == 0 {
      RootLink(rows, stacks[0]);
    } else {
      assert OpensInside(rows, stacks, k);
      var n: nat :| Opens(rows, stacks, k, n);
      StackIsPath(rows, stacks, k - 1);
      var p := stacks[k - 1][..n];
      PathPrefix(rows, stacks[k - 1], n);
      PathPrefix(rows, p, n);
      ParentIsHere(rows, rows[k], p[n - 1]);
      PathExtends(rows, p, rows[k]);
    }
  }

  lemma RootLink(rows: seq<Span>, p: Path)
    requires |rows| > 0 && p == [rows[0]] && rows[0].parent == None
    ensures IsPath(rows, p)
  {}

  lemma ParentIsHere(rows: seq<Span>, s: Span, t: Span)
    requires s.parent == Some(t.id) && t in rows
    ensures ParentKey(rows, s) == Some(t.id)
  {
    var k :| 0 <= k < |rows| && rows[k] == t;
  }

  /** Two paths that share their first n spans part there, if the second goes on
      with a span that started later. */
  lemma PartsHere(p: Path, q: Path, n: nat)
    requires n <= |p| && n < |q| && p[..n] == q[..n] && (n < |p| ==> Before(p[n], q[n]))
    ensures PathLess(p, q)
  {
    assert PartsAt(p, q, n);
  }

  lemma {:induction false} StacksAscend(rows: seq<Span>, stacks: seq<Path>, i: nat, j: nat)
    requires SortedSpans(rows) && Stacked(rows, stacks) && i < j < |rows|
    ensures PathLess(stacks[i], stacks[j])
    decreases j
  {
    assert OpensInside(rows, stacks, j);
    var n: nat :| Opens(rows, stacks, j, n);
    var p, q, r := stacks[i], stacks[j - 1], stacks[j];
    assert r[..n] == q[..n] && r[n] == rows[j];
    var k: nat := |p|;
    if i < j - 1 {
      StacksAscend(rows, stacks, i, j - 1);
      k :| PartsAt(p, q, k);
    }
    if k < n {
      assert r[..k] == q[..n][..k] == q[..k] && r[k] == q[..n][k] == q[k];
      PartsHere(p, r, k);
    } else {
      assert p[..n] == p[..k][..n] && q[..n] == q[..k][..n];
      if n < |p| {
        var m := StackRow(rows, stacks, i, n);
      }
      PartsHere(p, r, n);
    }
  }

  lemma {:induction false} OrderedSame(a: seq<Path>, b: seq<Path>)
    requires InWalkOrder(a) && InWalkOrder(b) && forall p :: p in a <==> p in b
    ensures a == b
    decreases |a|
  {
    hide PathLess;
    if |b| > 0 { assert b[0] in b; }
    if |a| > 0 {
      assert a[0] in a;
      LeastFirst(a, b);
      forall p ensures p in a[1..] <==> p in b[1..] {
        RestOfOrder(a, p);
        RestOfOrder(b, p);
      }
      OrderedSame(a[1..], b[1..]);
    }
  }

  lemma LeastFirst(a: seq<Path>, b: seq<Path>)
    requires InWalkOrder(a) && InWalkOrder(b) && |a| > 0 && |b| > 0 && a[0] in b && b[0] in a
    ensures a[0] == b[0]
  {
    hide PathLess;
    if a[0] != b[0] {
      assert PathLess(a[0], b[0]) && PathLess(b[0], a[0]);
      PathLessAsymmetric(a[0], b[0]);
      assert false;
    }
  }

  lemma RestOfOrder(a: seq<Path>, p: Path)
    requires InWalkOrder(a) && |a| > 0
    ensures p in a[1..] <==> p in a && p != a[0]
  {
    hide PathLess;
    if p in a[1..] && p == a[0] {
      PathLessAsymmetric(a[0], p);
      assert false;
    }
  }

  /** Rows in start order that were started under a stack are in preorder. */
  lemma NestedIsPreorder(rows: seq<Span>)
    requires DistinctIds(rows) && SortedSpans(rows) && Nested(rows)
    ensures Preorder(rows) == rows
  {
    hide ParentKey, IsPath, PreorderPaths, PathLess, Preorder, Stacked;
    var stacks :| Stacked(rows, stacks);
    StackCount(rows, stacks);
    var ps := PreorderPaths(rows);
    PreorderOrdered(rows);
    PreorderAt(rows);
    forall i, j | 0 <= i < j < |stacks| ensures PathLess(stacks[i], stacks[j]) {
      StacksAscend(rows, stacks, i, j);
    }
    forall q ensures q in stacks <==> q in ps {
      PreorderVisits(rows, q);
      if q in stacks {
        var k :| 0 <= k < |stacks| && stacks[k] == q;
        StackIsPath(rows, stacks, k);
        StackHolds(rows, stacks, k);
      } else if q in ps {
        PathPrefix(rows, q, 0);
        var k :| 0 <= k < |rows| && rows[k] == q[|q| - 1];
        StackIsPath(rows, stacks, k);
        StackHolds(rows, stacks, k);
        PathUnique(rows, q, stacks[k]);
        assert false;
      }
    }
    OrderedSame(stacks, ps);
    forall k | 0 <= k < |rows| ensures Preorder(rows)[k] == rows[k] {
      StackHolds(rows, stacks, k);
    }
  }

  lemma StackCount(rows: seq<Span>, stacks: seq<Path>)
    requires Stacked(rows, stacks)
    ensures |stacks| == |rows|
  {}

  // ---------- the spans of a run ----------

  /** Each span was opened inside the innermost one that was open. */
  ghost predicate ParentsFollow(agent: Agent, es: seq<Event>, s: Session) {
    && |s.stamps| == |es| + 1
    && forall k :: 0 < k <= |es| ==> FollowsAt(agent, es, s, k)
  }

  predicate FollowsAt(agent: Agent, es: seq<Event>, s: Session, k: nat)
    requires 0 < k <= |es| && |s.stamps| == |es| + 1
  {
    var open := OpenAt(agent, es, k);
    |open| > 1 && open[|open| - 2] < k && s.stamps[k].parent == Some(s.stamps[open[|open| - 2]].id)
  }

  function RowsAt(rows: seq<Span>, open: seq<nat>): (r: Path)
    requires forall i :: 0 <= i < |open| ==> open[i] < |rows|
    ensures |r| == |open| && forall i :: 0 <= i < |open| ==> r[i] == rows[open[i]]
  {
    seq(|open|, i requires 0 <= i < |open| => rows[open[i]])
  }

  lemma OpenWithin(agent: Agent, es: seq<Event>, m: nat)
    requires Bracketed(agent, es) && m <= |es|
    ensures forall i :: 0 <= i < |OpenAt(agent, es, m)| ==> OpenAt(agent, es, m)[i] <= m
  {
    hide OpenAt, Bracketed;
    OpenAscends(agent, es, m);
    LastOpen(agent, es, m);
  }

  lemma RunOpens(agent: Agent, h: Ingest.Host, s: Session, es: seq<Event>, stacks: seq<Path>, k: nat)
    requires Stamped(s, es) && Bracketed(agent, es) && ParentsFollow(agent, es, s) && 0 < k <= |es| == |stacks| - 1
    requires forall m, i :: 0 <= m <= |es| && 0 <= i < |OpenAt(agent, es, m)| ==> OpenAt(agent, es, m)[i] <= m
    requires forall m :: 0 <= m <= |es| ==> stacks[m] == RowsAt(Rows(h, s, es), OpenAt(agent, es, m))
    ensures OpensInside(Rows(h, s, es), stacks, k)
  {
    hide OpenAt, Bracketed, Rows, Stamped, ClosesAt;
    assert FollowsAt(agent, es, s, k);
    TurnBrackets(agent, es, k - 1);
    var rows, before := Rows(h, s, es), OpenAt(agent, es, k - 1);
    var n: nat := |before| - |ClosesAt(agent, es, k - 1)|;
    assert OpenAt(agent, es, k) == before[..n] + [k];
    RowTimes(h, s, es, k);
    RowTimes(h, s, es, before[n - 1]);
    assert stacks[k] == stacks[k - 1][..n] + [rows[k]];
    assert Opens(rows, stacks, k, n);
  }

  /** The rows of every run whose spans are opened and ended by context managers
      were started under a stack of open spans. */
  lemma RunsNest(agent: Agent, h: Ingest.Host, s: Session, es: seq<Event>)
    requires WellStamped(s, es) && Bracketed(agent, es) && ParentsFollow(agent, es, s)
    ensures Nested(Rows(h, s, es))
  {
    hide OpenAt, Bracketed, Rows, OpensInside;
    forall m, i | 0 <= m <= |es| && 0 <= i < |OpenAt(agent, es, m)| ensures OpenAt(agent, es, m)[i] <= m {
      OpenWithin(agent, es, m);
    }
    var rows := Rows(h, s, es);
    var stacks := seq(|es| + 1, m requires 0 <= m <= |es| => RowsAt(rows, OpenAt(agent, es, m)));
    FirstOpen(agent, es);
    RowTimes(h, s, es, 0);
    forall k | 0 < k < |rows| ensures OpensInside(rows, stacks, k) {
      RunOpens(agent, h, s, es, stacks, k);
    }
    assert Stacked(rows, stacks);
  }

  // ---------- both diffs ----------

  /** The kinds the capture API gives its spans. */
  predicate Captured(s: Span) { s.kind in {"llm_call", "tool_call", "node_execution"} }

  /** On such spans the joined key tells apart what the pair of kind and name
      does. */
  lemma JoinedKeyTells(a: Span, b: Span)
    requires Captured(a) && Captured(b)
    ensures Diff.JoinedKey(a) == Diff.JoinedKey(b) <==> Diff.Key(a) == Diff.Key(b)
  {
    if a.kind != b.kind {
      Diff.JoinedKeyCollides(a.kind, b.kind);
      assert a.kind[0] != b.kind[0];
      assert (a.kind + " ")[0] == a.kind[0] && (b.kind + " ")[0] == b.kind[0];
      assert a.kind + " " + a.name != b.kind + " " + b.name;
    } else if Diff.JoinedKey(a) == Diff.JoinedKey(b) {
      assert Diff.JoinedKey(a)[|a.kind| + 1..] == a.name;
      assert Diff.JoinedKey(b)[|b.kind| + 1..] == b.name;
    }
  }

  lemma SameDivergence(a: seq<Span>, b: seq<Span>)
    requires (forall k :: 0 <= k < |a| ==> Captured(a[k])) && (forall k :: 0 <= k < |b| ==> Captured(b[k]))
    ensures Diff.FirstDivergence(Diff.Alignment(a, b, Diff.JoinedKey))
         == Diff.FirstDivergence(Diff.Alignment(a, b, Diff.Key))
  {
    hide Diff.Alignment, Diff.FirstDivergence, Diff.ContentDiverged, Diff.Key, Diff.JoinedKey, Captured;
    Diff.FirstDivergenceExact(a, b, Diff.JoinedKey);
    Diff.FirstDivergenceExact(a, b, Diff.Key);
    forall k | 0 <= k < |a| && k < |b|
      ensures Diff.Agree(a[k], b[k], Diff.JoinedKey) == Diff.Agree(a[k], b[k], Diff.Key)
    {
      JoinedKeyTells(a[k], b[k]);
    }
  }

  lemma RowsCaptured(h: Ingest.Host, s: Session, es: seq<Event>, k: nat)
    requires WellStamped(s, es) && k <= |es|
    ensures Captured(Rows(h, s, es)[k])
  {
    if k == 0 {
      RootKind(h, s, s.stamps[0]);
    } else {
      KindOf(h, es[k - 1], s.trace, s.stamps[k]);
    }
    hide Ingest.MapSpan, EventAttrs;
  }

  /** For two recorded runs the browser's diff of the trees and the desktop's
      diff of the stored rows name the same first divergence. */
  lemma BothDiffsAgree(h: Ingest.Host, s: Session, es: seq<Event>, u: Session, fs: seq<Event>)
    requires WellStamped(s, es) && WellStamped(u, fs) && Nested(Rows(h, s, es)) && Nested(Rows(h, u, fs))
    ensures var a, b := Rows(h, s, es), Rows(h, u, fs);
            && DistinctIds(a) && DistinctIds(b)
            && Diff.FirstDivergence(Diff.Alignment(Preorder(a), Preorder(b), Diff.JoinedKey))
               == Diff.FirstDivergence(Diff.Alignment(a, b, Diff.Key))
  {
    hide Preorder, Nested, Captured, Rows, Diff.FirstDivergence, Diff.Alignment;
    var a, b := Rows(h, s, es), Rows(h, u, fs);
    RowsDistinct(h, s, es);
    RowsDistinct(h, u, fs);
    RowsSorted(h, s, es);
    RowsSorted(h, u, fs);
    NestedIsPreorder(a);
    NestedIsPreorder(b);
    forall k | 0 <= k < |a| ensures Captured(a[k]) { RowsCaptured(h, s, es, k); }
    forall k | 0 <= k < |b| ensures Captured(b[k]) { RowsCaptured(h, u, fs, k); }
    SameDivergence(a, b);
  }

  lemma RowsDistinct(h: Ingest.Host, s: Session, es: seq<Event>)
    requires WellStamped(s, es)
    ensures DistinctIds(Rows(h, s, es))
  {
    hide Rows;
    forall i, j | 0 <= i < j < |Rows(h, s, es)| ensures Rows(h, s, es)[i].id != Rows(h, s, es)[j].id {
      RowTimes(h, s, es, i);
      RowTimes(h, s, es, j);
    }
  }
}
