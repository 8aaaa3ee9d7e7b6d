/**
 Trace diff: aligning two ordered span lists, finding where they part, and the
 word-level text diff of the inspector.
 */
module Diff {
  import opened Spans
  import opened Lcs

  // ---------- aligning spans ----------

  datatype AlignKind = Equal | Changed | Removed | Added

  datatype AlignedPair = AlignedPair(kind: AlignKind, a: Option<Span>, b: Option<Span>)

  function Key(s: Span): (string, string) { (s.kind, s.name) }

  /** The key of the TypeScript copy joins kind and name with a space. */
  function JoinedKey(s: Span): string { s.kind + " " + s.name }

  // Replay bookkeeping set on branch roots; no meaningful divergence.
  const IGNORED_ATTRS: set<AttrKey> := {K("stethoscope.parent_trace_id"), K("stethoscope.branch_point_span_id")}

  function AttrsKey(a: Attrs): Attrs {
    match a
    case NoAttrs => NoAttrs
    case Raw(text) => if text == "" then NoAttrs else Raw(text)
    case Obj(m) => Obj(m - IGNORED_ATTRS)
  }

  predicate ContentDiverged(a: Span, b: Span) {
    a.status != b.status || AttrsKey(a.attrs) != AttrsKey(b.attrs)
  }

  /** The two spans are aligned by the key and shown as unchanged. */
  predicate Agree<K(==)>(a: Span, b: Span, key: Span -> K) {
    key(a) == key(b) && !ContentDiverged(a, b)
  }

  /** The two attribute maps say the same under every key but the two that link a
      branch to the trace it came from. */
  ghost predicate SameButLinks(a: map<AttrKey, AttrVal>, b: map<AttrKey, AttrVal>) {
    forall k :: k != K("stethoscope.parent_trace_id") && k != K("stethoscope.branch_point_span_id") ==>
      (k in a <==> k in b) && (k in a ==> a[k] == b[k])
  }

  lemma SameButLinksIs(a: map<AttrKey, AttrVal>, b: map<AttrKey, AttrVal>)
    ensures SameButLinks(a, b) <==> a - IGNORED_ATTRS == b - IGNORED_ATTRS
  {
    var x, y := a - IGNORED_ATTRS, b - IGNORED_ATTRS;
    if x == y {
      forall k | k != K("stethoscope.parent_trace_id") && k != K("stethoscope.branch_point_span_id")
        ensures (k in a <==> k in b) && (k in a ==> a[k] == b[k])
      {
        assert k in a <==> k in x;
        assert k in b <==> k in y;
      }
    }
  }

  /** Spans with attributes agree exactly if kind, name and status are the same and
      the attributes say the same, links aside. */
  lemma AgreeExactly(a: Span, b: Span)
    requires a.attrs.Obj? && b.attrs.Obj?
    ensures Agree(a, b, Key) <==>
              a.kind == b.kind && a.name == b.name && a.status == b.status
              && SameButLinks(a.attrs.fields, b.attrs.fields)
  {
    SameButLinksIs(a.attrs.fields, b.attrs.fields);
    hide IGNORED_ATTRS, SameButLinks;
  }

  /** The attributes column as text; an empty text is like none. */
  function ColumnText(a: Attrs): string
    requires !a.Obj?
  {
    if a.NoAttrs? then "" else a.text
  }

  /** Without attributes they agree exactly if the column holds the same text; with
      attributes on one side only they never do. */
  lemma AgreeAsText(a: Span, b: Span)
    requires !a.attrs.Obj? || !b.attrs.Obj?
    ensures Agree(a, b, Key) <==>
              a.kind == b.kind && a.name == b.name && a.status == b.status
              && !a.attrs.Obj? && !b.attrs.Obj? && ColumnText(a.attrs) == ColumnText(b.attrs)
  {}

  function PairOf(e: Edit<Span>): AlignedPair {
    match e
    case Keep(a, b) => AlignedPair(if ContentDiverged(a, b) then Changed else Equal, Some(a), Some(b))
    case Drop(a) => AlignedPair(Removed, Some(a), None)
    case Insert(b) => AlignedPair(Added, None, Some(b))
  }

  function Pairs(es: seq<Edit<Span>>): seq<AlignedPair> {
    if |es| == 0 then [] else [PairOf(es[0])] + Pairs(es[1..])
  }

  function Alignment<K(==)>(a: seq<Span>, b: seq<Span>, key: Span -> K): seq<AlignedPair> {
    Pairs(Edits(a, b, key, 0, 0))
  }

  /** What one turn of the traceback appends. */
  lemma AlignmentTurn<K>(a: seq<Span>, b: seq<Span>, key: Span -> K, i: nat, j: nat)
    requires i <= |a| && j <= |b|
    ensures var ps := Pairs(Edits(a, b, key, i, j));
            if i < |a| && j < |b| && key(a[i]) == key(b[j]) then
              ps == [PairOf(Keep(a[i], b[j]))] + Pairs(Edits(a, b, key, i + 1, j + 1))
            else if i < |a| && (j == |b| || LcsLen(a, b, key, i + 1, j) >= LcsLen(a, b, key, i, j + 1)) then
              ps == [PairOf(Drop(a[i]))] + Pairs(Edits(a, b, key, i + 1, j))
            else if j < |b| then ps == [PairOf(Insert(b[j]))] + Pairs(Edits(a, b, key, i, j + 1))
            else ps == []
  {
    var es := Edits(a, b, key, i, j);
    if |es| > 0 { assert es == [es[0]] + es[1..]; }
  }

  lemma AppendPair(out: seq<AlignedPair>, p: AlignedPair, rest: seq<AlignedPair>)
    ensures (out + [p]) + rest == out + ([p] + rest)
  {}

  method AlignSpans<K(==)>(a: seq<Span>, b: seq<Span>, key: Span -> K) returns (out: seq<AlignedPair>)
    ensures out == Alignment(a, b, key)
  {
    var n, m := |a|, |b|;
    var dp := FillTable(a, b, key);
    out := [];
    var i, j := 0, 0;
    while i < n && j < m
      modifies {}
      invariant i <= n && j <= m
      invariant out + Pairs(Edits(a, b, key, i, j)) == Alignment(a, b, key)
      decreases n - i + m - j
    {
      AlignmentTurn(a, b, key, i, j);
      if key(a[i]) == key(b[j]) {
        var kind := if ContentDiverged(a[i], b[j]) then Changed else Equal;
        AppendPair(out, PairOf(Keep(a[i], b[j])), Pairs(Edits(a, b, key, i + 1, j + 1)));
        out := out + [AlignedPair(kind, Some(a[i]), Some(b[j]))];
        i, j := i + 1, j + 1;
      } else if dp[i + 1, j] >= dp[i, j + 1] {
        AppendPair(out, PairOf(Drop(a[i])), Pairs(Edits(a, b, key, i + 1, j)));
        out := out + [AlignedPair(Removed, Some(a[i]), None)];
        i := i + 1;
      } else {
        AppendPair(out, PairOf(Insert(b[j])), Pairs(Edits(a, b, key, i, j + 1)));
        out := out + [AlignedPair(Added, None, Some(b[j]))];
        j := j + 1;
      }
    }
    while i < n
      invariant i <= n && j <= m && (i < n ==> j == m)
      invariant out + Pairs(Edits(a, b, key, i, j)) == Alignment(a, b, key)
    {
      AlignmentTurn(a, b, key, i, j);
      AppendPair(out, PairOf(Drop(a[i])), Pairs(Edits(a, b, key, i + 1, j)));
      out := out + [AlignedPair(Removed, Some(a[i]), None)];
      i := i + 1;
    }
    while j < m
      invariant i == n && j <= m
      invariant out + Pairs(Edits(a, b, key, i, j)) == Alignment(a, b, key)
    {
      AlignmentTurn(a, b, key, i, j);
      AppendPair(out, PairOf(Insert(b[j])), Pairs(Edits(a, b, key, i, j + 1)));
      out := out + [AlignedPair(Added, None, Some(b[j]))];
      j := j + 1;
    }
  }

  // The spans a side of the alignment shows, in order.
  function LeftColumn(ps: seq<AlignedPair>): seq<Span> {
    if |ps| == 0 then []
    else if ps[0].a.Some? then [ps[0].a.value] + LeftColumn(ps[1..]) else LeftColumn(ps[1..])
  }

  function RightColumn(ps: seq<AlignedPair>): seq<Span> {
    if |ps| == 0 then []
    else if ps[0].b.Some? then [ps[0].b.value] + RightColumn(ps[1..]) else RightColumn(ps[1..])
  }

  function MatchedCount(ps: seq<AlignedPair>): nat {
    if |ps| == 0 then 0
    else (if ps[0].kind in {Equal, Changed} then 1 else 0) + MatchedCount(ps[1..])
  }

  lemma {:induction false} PairsColumns(es: seq<Edit<Span>>)
    ensures LeftColumn(Pairs(es)) == ASide(es) && RightColumn(Pairs(es)) == BSide(es)
    ensures MatchedCount(Pairs(es)) == |Kept(es)|
  {
    if |es| > 0 {
      PairsColumns(es[1..]);
      assert Pairs(es)[1..] == Pairs(es[1..]);
    }
  }

  lemma {:induction false} PairsPointwise(es: seq<Edit<Span>>)
    ensures |Pairs(es)| == |es|
    ensures forall k :: 0 <= k < |es| ==> Pairs(es)[k] == PairOf(es[k])
  {
    if |es| > 0 { PairsPointwise(es[1..]); }
  }

  /** The pair has the shape its kind says; aligned pairs share a key. */
  predicate WellFormed<K(==)>(p: AlignedPair, key: Span -> K) {
    match p.kind
    case Removed => p.a.Some? && p.b.None?
    case Added => p.a.None? && p.b.Some?
    case _ =>
      && p.a.Some? && p.b.Some? && key(p.a.value) == key(p.b.value)
      && (p.kind == Changed <==> ContentDiverged(p.a.value, p.b.value))
  }

  lemma AlignmentWellFormed<K(!new)>(a: seq<Span>, b: seq<Span>, key: Span -> K)
    ensures forall k :: 0 <= k < |Alignment(a, b, key)| ==> WellFormed(Alignment(a, b, key)[k], key)
  {
    var es := Edits(a, b, key, 0, 0);
    KeepsShareKey(a, b, key, 0, 0);
    PairsPointwise(es);
    forall k | 0 <= k < |es| ensures WellFormed(PairOf(es[k]), key) {
      assert es[k] in es;
    }
  }

  /** Nothing is lost: the left column is a, the right column is b, and every
      pair is well formed. */
  lemma AlignmentLossless<K(!new)>(a: seq<Span>, b: seq<Span>, key: Span -> K)
    ensures LeftColumn(Alignment(a, b, key)) == a && RightColumn(Alignment(a, b, key)) == b
    ensures forall k :: 0 <= k < |Alignment(a, b, key)| ==> WellFormed(Alignment(a, b, key)[k], key)
  {
    EditsLossless(a, b, key, 0, 0);
    PairsColumns(Edits(a, b, key, 0, 0));
    AlignmentWellFormed(a, b, key);
  }

  /** No common subsequence of the two key lists is longer than the number of
      aligned pairs, some common subsequence is that long, and diffing the
      other way round aligns as many. */
  lemma AlignmentOptimal<K(!new)>(a: seq<Span>, b: seq<Span>, key: Span -> K)
    ensures forall c :: IsSubsequence(c, a, key, 0) && IsSubsequence(c, b, key, 0) ==>
              |c| <= MatchedCount(Alignment(a, b, key))
    ensures exists c :: IsSubsequence(c, a, key, 0) && IsSubsequence(c, b, key, 0) &&
              |c| == MatchedCount(Alignment(a, b, key))
    ensures MatchedCount(Alignment(a, b, key)) == MatchedCount(Alignment(b, a, key))
  {
    EditsAreOptimal(a, b, key);
    PairsColumns(Edits(a, b, key, 0, 0));
    KeptCount(a, b, key, 0, 0);
    PairsColumns(Edits(b, a, key, 0, 0));
    KeptCount(b, a, key, 0, 0);
    LcsSymmetric(a, b, key, 0, 0);
  }

  // ---------- first divergence ----------

  function FirstNotEqual(ps: seq<AlignedPair>, k: nat): Option<nat>
    requires k <= |ps|
    decreases |ps| - k
  {
    if k == |ps| then None else if ps[k].kind != Equal then Some(k) else FirstNotEqual(ps, k + 1)
  }

  function FirstDivergence(ps: seq<AlignedPair>): Option<nat> { FirstNotEqual(ps, 0) }

  /** a and b agree exactly on the positions from..upto, no further. */
  ghost predicate AgreeUpTo<K>(a: seq<Span>, b: seq<Span>, key: Span -> K, from: nat, upto: nat) {
    && from <= upto <= |a| && upto <= |b|
    && (forall k :: from <= k < upto ==> Agree(a[k], b[k], key))
    && !(upto < |a| && upto < |b| && Agree(a[upto], b[upto], key))
  }

  lemma {:induction false} FirstNotEqualExact<K>(a: seq<Span>, b: seq<Span>, key: Span -> K, k: nat)
    requires k <= |a| && k <= |b|
    requires k <= |Alignment(a, b, key)|
    requires Alignment(a, b, key)[k..] == Pairs(Edits(a, b, key, k, k))
    ensures match FirstNotEqual(Alignment(a, b, key), k)
            case None => |a| == |b| && AgreeUpTo(a, b, key, k, |a|)
            case Some(d) => AgreeUpTo(a, b, key, k, d) && !(d == |a| == |b|)
    decreases |a| - k
  {
    var ps := Alignment(a, b, key);
    var es := Edits(a, b, key, k, k);
    PairsPointwise(es);
    if |es| > 0 {
      assert ps[k] == ps[k..][0] == PairOf(es[0]);
      if k < |a| && k < |b| && Agree(a[k], b[k], key) {
        assert ps[k + 1..] == ps[k..][1..] == Pairs(es)[1..] == Pairs(es[1..]);
        FirstNotEqualExact(a, b, key, k + 1);
      }
    }
  }

  /** The first divergence is the length of the longest prefix on which the
      two lists agree; there is none only if they agree from end to end. */
  lemma FirstDivergenceExact<K>(a: seq<Span>, b: seq<Span>, key: Span -> K)
    ensures match FirstDivergence(Alignment(a, b, key))
            case None => |a| == |b| && AgreeUpTo(a, b, key, 0, |a|)
            case Some(d) => AgreeUpTo(a, b, key, 0, d) && !(d == |a| == |b|)
  {
    assert Alignment(a, b, key)[0..] == Alignment(a, b, key);
    FirstNotEqualExact(a, b, key, 0);
  }

  // ---------- the joined key ----------

  lemma JoinedKeyPrefix(k1: string, n1: string, k2: string, n2: string)
    requires k1 + " " + n1 == k2 + " " + n2 && |k1| <= |k2| && k1 != k2
    ensures k1 + " " <= k2
  {
    var w := k1 + " " + n1;
    assert w[..|k1|] == k1 && w[|k1|] == ' ';
    assert w[..|k2|] == (k2 + " " + n2)[..|k2|] == k2;
    assert k2[..|k2|] == k2 && k2[..|k1|] == k1;
    assert k2[..|k1| + 1] == w[..|k1| + 1];
  }

  /** The joined key mixes up spans of two different kinds exactly when one
      kind followed by a space begins the other. */
  lemma JoinedKeyCollides(k1: string, k2: string)
    requires k1 != k2
    ensures (exists n1: string, n2: string :: k1 + " " + n1 == k2 + " " + n2)
            <==> (k1 + " " <= k2 || k2 + " " <= k1)
  {
    if k1 + " " <= k2 {
      var n1 := k2[|k1| + 1..] + " ";
      assert k1 + " " + n1 == k2 + " " + "";
    }
    if k2 + " " <= k1 {
      var n2 := k1[|k2| + 1..] + " ";
      assert k1 + " " + "" == k2 + " " + n2;
    }
    forall n1: string, n2: string | k1 + " " + n1 == k2 + " " + n2
      ensures k1 + " " <= k2 || k2 + " " <= k1
    {
      if |k1| <= |k2| {
        JoinedKeyPrefix(k1, n1, k2, n2);
      } else {
        JoinedKeyPrefix(k2, n2, k1, n1);
      }
    }
  }

  // ---------- word diff ----------

  datatype Op = Same | Minus | Plus

  datatype Seg = Seg(op: Op, text: string)

  /** Length of the leading run of one class: whitespace or not. */
  function RunLength(s: string, space: char -> bool): (n: nat)
    requires |s| > 0
    ensures 0 < n <= |s|
  {
    if |s| > 1 && space(s[1]) == space(s[0]) then 1 + RunLength(s[1..], space) else 1
  }

  /** The words and the gaps between them, in order. */
  function Words(s: string, space: char -> bool): seq<string> {
    if |s| == 0 then []
    else var n := RunLength(s, space); [s[..n]] + Words(s[n..], space)
  }

  predicate IsRun(w: string, space: char -> bool) {
    |w| > 0 && forall k :: 0 <= k < |w| ==> space(w[k]) == space(w[0])
  }

  lemma {:induction false} RunLengthMaximal(s: string, space: char -> bool)
    requires |s| > 0
    ensures var n := RunLength(s, space);
            IsRun(s[..n], space) && (n < |s| ==> space(s[n]) != space(s[0]))
  {
    if |s| > 1 && space(s[1]) == space(s[0]) {
      RunLengthMaximal(s[1..], space);
      var n := RunLength(s, space);
      assert forall k :: 0 < k < n ==> s[..n][k] == s[1..][..n - 1][k - 1];
    }
  }

  /** Words are maximal runs: each of one class, neighbours of different ones. */
  lemma {:induction false} WordsAreMaximalRuns(s: string, space: char -> bool)
    ensures var ws := Words(s, space);
            && (forall k :: 0 <= k < |ws| ==> IsRun(ws[k], space))
            && (forall k :: 0 <= k < |ws| - 1 ==> space(ws[k][0]) != space(ws[k + 1][0]))
            && (|s| > 0 ==> |ws| > 0 && ws[0][0] == s[0])
    decreases |s|
  {
    if |s| > 0 {
      var n := RunLength(s, space);
      RunLengthMaximal(s, space);
      WordsAreMaximalRuns(s[n..], space);
    }
  }

  function Concat(ws: seq<string>): string {
    if |ws| == 0 then "" else ws[0] + Concat(ws[1..])
  }

  function Itself(w: string): string { w }

  function Push(segs: seq<Seg>, op: Op, text: string): seq<Seg> {
    var k := |segs| - 1;
    if k >= 0 && segs[k].op == op then segs[k := Seg(op, segs[k].text + text)]
    else segs + [Seg(op, text)]
  }

  function PushEdit(segs: seq<Seg>, e: Edit<string>): seq<Seg> {
    match e
    case Keep(w, _) => Push(segs, Same, w)
    case Drop(w) => Push(segs, Minus, w)
    case Insert(w) => Push(segs, Plus, w)
  }

  function PushAll(segs: seq<Seg>, es: seq<Edit<string>>): seq<Seg>
    decreases |es|
  {
    if |es| == 0 then segs else PushAll(PushEdit(segs, es[0]), es[1..])
  }

  function WordEdits(a: string, b: string, space: char -> bool): seq<Edit<string>> {
    Edits(Words(a, space), Words(b, space), Itself, 0, 0)
  }

  method WordDiff(a: string, b: string, space: char -> bool) returns (segs: seq<Seg>)
    ensures segs == PushAll([], WordEdits(a, b, space))
  {
    var aw, bw := Words(a, space), Words(b, space);
    var n, m := |aw|, |bw|;
    var dp := FillTable(aw, bw, Itself);
    segs := [];
    var i, j := 0, 0;
    while i < n && j < m
      invariant i <= n && j <= m
      invariant PushAll(segs, Edits(aw, bw, Itself, i, j)) == PushAll([], WordEdits(a, b, space))
      decreases n - i + m - j
    {
      if aw[i] == bw[j] {
        segs := Push(segs, Same, aw[i]);
        i, j := i + 1, j + 1;
      } else if dp[i + 1, j] >= dp[i, j + 1] {
        segs := Push(segs, Minus, aw[i]);
        i := i + 1;
      } else {
        segs := Push(segs, Plus, bw[j]);
        j := j + 1;
      }
    }
    while i < n
      invariant i <= n && j <= m && (i < n ==> j == m)
      invariant PushAll(segs, Edits(aw, bw, Itself, i, j)) == PushAll([], WordEdits(a, b, space))
    {
      segs := Push(segs, Minus, aw[i]);
      i := i + 1;
    }
    while j < m
      invariant i == n && j <= m
      invariant PushAll(segs, Edits(aw, bw, Itself, i, j)) == PushAll([], WordEdits(a, b, space))
    {
      segs := Push(segs, Plus, bw[j]);
      j := j + 1;
    }
  }

  /** The text of the segments whose op is in the given set. */
  function TextOf(segs: seq<Seg>, ops: set<Op>): string {
    if |segs| == 0 then ""
    else var k := |segs| - 1; TextOf(segs[..k], ops) + (if segs[k].op in ops then segs[k].text else "")
  }

  predicate Alternates(segs: seq<Seg>) {
    forall k :: 0 <= k < |segs| - 1 ==> segs[k].op != segs[k + 1].op
  }

  lemma PushAlternates(segs: seq<Seg>, op: Op, text: string)
    requires Alternates(segs)
    ensures Alternates(Push(segs, op, text))
  {}

  lemma TextSnoc(segs: seq<Seg>, last: Seg, ops: set<Op>)
    ensures TextOf(segs + [last], ops) == TextOf(segs, ops) + (if last.op in ops then last.text else "")
  {
    assert (segs + [last])[..|segs|] == segs;
  }

  lemma PushText(segs: seq<Seg>, op: Op, text: string, ops: set<Op>)
    ensures TextOf(Push(segs, op, text), ops) == TextOf(segs, ops) + (if op in ops then text else "")
  {
    hide TextOf;
    var k := |segs| - 1;
    if k >= 0 && segs[k].op == op {
      var init, was := segs[..k], segs[k].text;
      assert segs == init + [segs[k]] && Push(segs, op, text) == init + [Seg(op, was + text)];
      TextSnoc(init, segs[k], ops);
      TextSnoc(init, Seg(op, was + text), ops);
      if op in ops { Associate(TextOf(init, ops), was, text); }
    } else {
      TextSnoc(segs, Seg(op, text), ops);
    }
  }

  /** Pushing an edit script adds, for each op, the words the script has there. */
  lemma {:induction false} PushAllText(segs: seq<Seg>, es: seq<Edit<string>>, ops: set<Op>)
    requires Alternates(segs)
    ensures Alternates(PushAll(segs, es))
    ensures TextOf(PushAll(segs, es), ops) == TextOf(segs, ops) + Concat(WordsAt(es, ops))
    decreases |es|
  {
    if |es| > 0 {
      var w, op := WordOf(es[0]), OpOf(es[0]);
      var more := WordsAt(es[1..], ops);
      assert PushAll(segs, es) == PushAll(Push(segs, op, w), es[1..]);
      PushText(segs, op, w, ops);
      PushAlternates(segs, op, w);
      PushAllText(Push(segs, op, w), es[1..], ops);
      if op in ops {
        ConcatCons(w, more);
        Associate(TextOf(segs, ops), w, Concat(more));
      } else {
        assert TextOf(segs, ops) + "" == TextOf(segs, ops);
      }
    }
  }

  function WordOf(e: Edit<string>): string {
    if e.Insert? then e.b else e.a
  }

  function OpOf(e: Edit<string>): Op {
    match e case Keep(_, _) => Same case Drop(_) => Minus case Insert(_) => Plus
  }

  /** The words of the script whose op is in the given set. */
  function WordsAt(es: seq<Edit<string>>, ops: set<Op>): seq<string> {
    if |es| == 0 then []
    else if OpOf(es[0]) in ops then [WordOf(es[0])] + WordsAt(es[1..], ops) else WordsAt(es[1..], ops)
  }

  lemma {:induction false} WordsAtSides(es: seq<Edit<string>>)
    requires forall e :: e in es && e.Keep? ==> e.a == e.b
    ensures WordsAt(es, {Same, Minus}) == ASide(es)
    ensures WordsAt(es, {Same, Plus}) == BSide(es)
    ensures WordsAt(es, {Same}) == Kept(es)
  {
    if |es| > 0 {
      assert es[0] in es;
      WordsAtSides(es[1..]);
    }
  }

  lemma Associate(a: string, b: string, c: string)
    ensures (a + b) + c == a + (b + c)
  {}

  lemma ConcatCons(w: string, ws: seq<string>)
    ensures Concat([w] + ws) == w + Concat(ws)
  {
    assert ([w] + ws)[1..] == ws;
  }

  lemma {:induction false} WordsConcat(s: string, space: char -> bool)
    ensures Concat(Words(s, space)) == s
    decreases |s|
  {
    if |s| > 0 {
      var n := RunLength(s, space);
      WordsConcat(s[n..], space);
      ConcatCons(s[..n], Words(s[n..], space));
    }
  }

  /** The segments rebuild both texts, neighbours never share an op, and the
      kept text joins a longest common subsequence of the two word lists. */
  lemma WordDiffMeaning(a: string, b: string, space: char -> bool)
    ensures var segs := PushAll([], WordEdits(a, b, space));
            var kept := Kept(WordEdits(a, b, space));
            && TextOf(segs, {Same, Minus}) == a
            && TextOf(segs, {Same, Plus}) == b
            && Alternates(segs)
            && TextOf(segs, {Same}) == Concat(kept)
            && |kept| == LcsLen(Words(a, space), Words(b, space), Itself, 0, 0)
            && forall c :: IsSubsequence(c, Words(a, space), Itself, 0) && IsSubsequence(c, Words(b, space), Itself, 0)
                 ==> |c| <= |kept|
  {
    var aw, bw := Words(a, space), Words(b, space);
    KeepsShareKey(aw, bw, Itself, 0, 0);
    forall e | e in WordEdits(a, b, space) && e.Keep? ensures e.a == e.b {
      assert Itself(e.a) == Itself(e.b);
    }
    WordsAtSides(WordEdits(a, b, space));
    PushAllText([], WordEdits(a, b, space), {Same, Minus});
    PushAllText([], WordEdits(a, b, space), {Same, Plus});
    PushAllText([], WordEdits(a, b, space), {Same});
    EditsLossless(aw, bw, Itself, 0, 0);
    WordsConcat(a, space);
    WordsConcat(b, space);
    EditsAreOptimal(aw, bw, Itself);
    KeptCount(aw, bw, Itself, 0, 0);
  }

  lemma {:induction false} SelfEditsKeepAll(w: seq<string>, segs: seq<Seg>, i: nat)
    requires i <= |w|
    requires if i == 0 then segs == [] else exists t :: segs == [Seg(Same, t)]
    ensures var out := PushAll(segs, Edits(w, w, Itself, i, i));
            if |w| == 0 then out == [] else exists t :: out == [Seg(Same, t)]
    decreases |w| - i
  {
    if i < |w| {
      SelfEditsKeepAll(w, Push(segs, Same, w[i]), i + 1);
    }
  }

  /** A text diffed against itself is one kept segment, or none if empty. */
  lemma WordDiffSelf(a: string, space: char -> bool)
    ensures PushAll([], WordEdits(a, a, space)) == if a == "" then [] else [Seg(Same, a)]
  {
    SelfEditsKeepAll(Words(a, space), [], 0);
    WordDiffMeaning(a, a, space);
    if a != "" {
      var t :| PushAll([], WordEdits(a, a, space)) == [Seg(Same, t)];
      assert TextOf([Seg(Same, t)], {Same, Minus}) == t by { assert [Seg(Same, t)][..0] == []; }
    }
  }
}
