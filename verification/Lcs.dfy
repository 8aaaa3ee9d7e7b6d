/** Longest common subsequences: the table, the greedy traceback, and why it keeps as much as can be. */
module Lcs {

  /** Length of a longest common subsequence of the keys of a[i..] and b[j..]. */
  function LcsLen<T, K(==)>(a: seq<T>, b: seq<T>, key: T -> K, i: nat, j: nat): nat
    requires i <= |a| && j <= |b|
    decreases |a| - i + |b| - j
  {
    if i == |a| || j == |b| then 0
    else if key(a[i]) == key(b[j]) then 1 + LcsLen(a, b, key, i + 1, j + 1)
    else
      var down, right := LcsLen(a, b, key, i + 1, j), LcsLen(a, b, key, i, j + 1);
      if down >= right then down else right
  }

  lemma LcsCell<T, K>(a: seq<T>, b: seq<T>, key: T -> K, i: nat, j: nat)
    requires i < |a| && j < |b|
    ensures LcsLen(a, b, key, i, j) ==
              if key(a[i]) == key(b[j]) then 1 + LcsLen(a, b, key, i + 1, j + 1)
              else if LcsLen(a, b, key, i + 1, j) >= LcsLen(a, b, key, i, j + 1) then LcsLen(a, b, key, i + 1, j)
              else LcsLen(a, b, key, i, j + 1)
  {}

  lemma LcsEdge<T, K>(a: seq<T>, b: seq<T>, key: T -> K, i: nat, j: nat)
    requires i <= |a| && j <= |b| && (i == |a| || j == |b|)
    ensures LcsLen(a, b, key, i, j) == 0
  {}

  /** One row of the table, from the right, given the row below it. */
  method FillRow<T, K(==)>(a: seq<T>, b: seq<T>, key: T -> K, dp: array2<nat>, i: nat)
    requires dp.Length0 == |a| + 1 && dp.Length1 == |b| + 1 && i < |a| && dp[i, |b|] == 0
    requires forall r, c :: r == i + 1 && 0 <= c <= |b| ==> dp[r, c] == LcsLen(a, b, key, r, c)
    modifies dp
    ensures forall c :: 0 <= c <= |b| ==> dp[i, c] == LcsLen(a, b, key, i, c)
    ensures forall r, c :: 0 <= r <= |a| && 0 <= c <= |b| && r != i ==> dp[r, c] == old(dp[r, c])
  {
    LcsEdge(a, b, key, i, |b|);
    hide LcsLen;
    var j := |b|;
    while j > 0
      invariant 0 <= j <= |b|
      invariant forall c :: j <= c <= |b| ==> dp[i, c] == LcsLen(a, b, key, i, c)
      invariant forall r, c :: 0 <= r <= |a| && 0 <= c <= |b| && r != i ==> dp[r, c] == old(dp[r, c])
    {
      j := j - 1;
      assert dp[i + 1, j] == LcsLen(a, b, key, i + 1, j) && dp[i + 1, j + 1] == LcsLen(a, b, key, i + 1, j + 1);
      LcsCell(a, b, key, i, j);
      dp[i, j] :=
        if key(a[i]) == key(b[j]) then dp[i + 1, j + 1] + 1
        else if dp[i + 1, j] >= dp[i, j + 1] then dp[i + 1, j] else dp[i, j + 1];
    }
  }

  /** The table filled from the bottom right corner. */
  method FillTable<T, K(==)>(a: seq<T>, b: seq<T>, key: T -> K) returns (dp: array2<nat>)
    ensures fresh(dp) && dp.Length0 == |a| + 1 && dp.Length1 == |b| + 1
    ensures forall i, j :: 0 <= i <= |a| && 0 <= j <= |b| ==> dp[i, j] == LcsLen(a, b, key, i, j)
  {
    hide LcsLen;
    var n, m := |a|, |b|;
    dp := new nat[n + 1, m + 1]((_, _) => 0);
    forall c | 0 <= c <= m ensures LcsLen(a, b, key, n, c) == 0 {
      LcsEdge(a, b, key, n, c);
    }
    var i := n;
    while i > 0
      invariant 0 <= i <= n
      invariant forall r, c :: i <= r <= n && 0 <= c <= m ==> dp[r, c] == LcsLen(a, b, key, r, c)
      invariant forall r :: 0 <= r < i ==> dp[r, m] == 0
    {
      i := i - 1;
      FillRow(a, b, key, dp, i);
    }
  }

  /** One step of the edit script that turns a into b. */
  datatype Edit<T> = Keep(a: T, b: T) | Drop(a: T) | Insert(b: T)

  /** The script the greedy traceback reads off the table. */
  function Edits<T, K(==)>(a: seq<T>, b: seq<T>, key: T -> K, i: nat, j: nat): seq<Edit<T>>
    requires i <= |a| && j <= |b|
    decreases |a| - i + |b| - j
  {
    if i < |a| && j < |b| then
      if key(a[i]) == key(b[j]) then [Keep(a[i], b[j])] + Edits(a, b, key, i + 1, j + 1)
      else if LcsLen(a, b, key, i + 1, j) >= LcsLen(a, b, key, i, j + 1) then
        [Drop(a[i])] + Edits(a, b, key, i + 1, j)
      else [Insert(b[j])] + Edits(a, b, key, i, j + 1)
    else if i < |a| then [Drop(a[i])] + Edits(a, b, key, i + 1, j)
    else if j < |b| then [Insert(b[j])] + Edits(a, b, key, i, j + 1)
    else []
  }

  function ASide<T>(es: seq<Edit<T>>): seq<T> {
    if |es| == 0 then []
    else if es[0].Insert? then ASide(es[1..]) else [es[0].a] + ASide(es[1..])
  }

  function BSide<T>(es: seq<Edit<T>>): seq<T> {
    if |es| == 0 then []
    else if es[0].Drop? then BSide(es[1..]) else [es[0].b] + BSide(es[1..])
  }

  /** The A-side elements the script keeps. */
  function Kept<T>(es: seq<Edit<T>>): seq<T> {
    if |es| == 0 then []
    else if es[0].Keep? then [es[0].a] + Kept(es[1..]) else Kept(es[1..])
  }

  /** c is a subsequence of the keys of a[i..]. */
  predicate IsSubsequence<T, K(==)>(c: seq<K>, a: seq<T>, key: T -> K, i: nat)
    requires i <= |a|
    decreases |a| - i
  {
    |c| == 0 || (i < |a| &&
    ((c[0] == key(a[i]) && IsSubsequence(c[1..], a, key, i + 1)) || IsSubsequence(c, a, key, i + 1)))
  }

  function KeysOf<T, K>(s: seq<T>, key: T -> K): seq<K> {
    if |s| == 0 then [] else [key(s[0])] + KeysOf(s[1..], key)
  }

  // ---------- the script loses nothing ----------

  lemma SidesCons<T>(e: Edit<T>, rest: seq<Edit<T>>)
    ensures ASide([e] + rest) == (if e.Insert? then ASide(rest) else [e.a] + ASide(rest))
    ensures BSide([e] + rest) == (if e.Drop? then BSide(rest) else [e.b] + BSide(rest))
    ensures Kept([e] + rest) == (if e.Keep? then [e.a] + Kept(rest) else Kept(rest))
  {
    assert ([e] + rest)[1..] == rest;
  }

  lemma SliceCons<T>(a: seq<T>, i: nat)
    requires i < |a|
    ensures a[i..] == [a[i]] + a[i + 1..]
  {}

  lemma {:induction false} EditsLossless<T, K>(a: seq<T>, b: seq<T>, key: T -> K, i: nat, j: nat)
    requires i <= |a| && j <= |b|
    ensures ASide(Edits(a, b, key, i, j)) == a[i..]
    ensures BSide(Edits(a, b, key, i, j)) == b[j..]
    decreases |a| - i + |b| - j
  {
    if i < |a| && j < |b| && key(a[i]) == key(b[j]) {
      EditsLossless(a, b, key, i + 1, j + 1);
      SliceCons(a, i);
      SliceCons(b, j);
      SidesCons(Keep(a[i], b[j]), Edits(a, b, key, i + 1, j + 1));
    } else if i < |a| && (j == |b| || LcsLen(a, b, key, i + 1, j) >= LcsLen(a, b, key, i, j + 1)) {
      EditsLossless(a, b, key, i + 1, j);
      SliceCons(a, i);
      SidesCons(Drop(a[i]), Edits(a, b, key, i + 1, j));
    } else if j < |b| {
      EditsLossless(a, b, key, i, j + 1);
      SliceCons(b, j);
      SidesCons(Insert(b[j]), Edits(a, b, key, i, j + 1));
    }
  }

  lemma {:induction false} KeepsShareKey<T, K>(a: seq<T>, b: seq<T>, key: T -> K, i: nat, j: nat)
    requires i <= |a| && j <= |b|
    ensures forall e :: e in Edits(a, b, key, i, j) && e.Keep? ==> key(e.a) == key(e.b)
    decreases |a| - i + |b| - j
  {
    if i < |a| && j < |b| && key(a[i]) == key(b[j]) {
      KeepsShareKey(a, b, key, i + 1, j + 1);
    } else if i < |a| && (j == |b| || LcsLen(a, b, key, i + 1, j) >= LcsLen(a, b, key, i, j + 1)) {
      KeepsShareKey(a, b, key, i + 1, j);
    } else if j < |b| {
      KeepsShareKey(a, b, key, i, j + 1);
    }
  }

  // ---------- the script keeps a longest common subsequence ----------

  lemma {:induction false} SubsequenceDropHead<T, K>(c: seq<K>, a: seq<T>, key: T -> K, i: nat)
    requires i <= |a| && |c| > 0 && IsSubsequence(c, a, key, i)
    ensures IsSubsequence(c[1..], a, key, i)
    decreases |a| - i
  {
    if !(c[0] == key(a[i]) && IsSubsequence(c[1..], a, key, i + 1)) {
      SubsequenceDropHead(c, a, key, i + 1);
    }
  }

  lemma {:induction false} CommonIsShorter<T, K>(c: seq<K>, a: seq<T>, b: seq<T>, key: T -> K, i: nat, j: nat)
    requires i <= |a| && j <= |b|
    requires IsSubsequence(c, a, key, i) && IsSubsequence(c, b, key, j)
    ensures |c| <= LcsLen(a, b, key, i, j)
    decreases |a| - i + |b| - j
  {
    if |c| > 0 {
      if key(a[i]) == key(b[j]) {
        if c[0] != key(a[i]) {
          SubsequenceDropHead(c, a, key, i + 1);
          SubsequenceDropHead(c, b, key, j + 1);
        } else {
          if !IsSubsequence(c[1..], a, key, i + 1) { SubsequenceDropHead(c, a, key, i + 1); }
          if !IsSubsequence(c[1..], b, key, j + 1) { SubsequenceDropHead(c, b, key, j + 1); }
        }
        CommonIsShorter(c[1..], a, b, key, i + 1, j + 1);
      } else if IsSubsequence(c, a, key, i + 1) {
        CommonIsShorter(c, a, b, key, i + 1, j);
      } else {
        CommonIsShorter(c, a, b, key, i, j + 1);
      }
    }
  }

  lemma SubsequenceCons<T, K>(c: seq<K>, a: seq<T>, key: T -> K, i: nat)
    requires i < |a| && IsSubsequence(c, a, key, i + 1)
    ensures IsSubsequence([key(a[i])] + c, a, key, i) && IsSubsequence(c, a, key, i)
  {
    assert ([key(a[i])] + c)[1..] == c;
  }

  lemma {:induction false} KeptCount<T, K>(a: seq<T>, b: seq<T>, key: T -> K, i: nat, j: nat)
    requires i <= |a| && j <= |b|
    ensures |Kept(Edits(a, b, key, i, j))| == LcsLen(a, b, key, i, j)
    decreases |a| - i + |b| - j
  {
    EditsTurn(a, b, key, i, j);
    if i < |a| && j < |b| { LcsCell(a, b, key, i, j); }
    if i == |a| || j == |b| { LcsEdge(a, b, key, i, j); }
    if i < |a| && j == |b| { LcsEdge(a, b, key, i + 1, j); }
    if i == |a| && j < |b| { LcsEdge(a, b, key, i, j + 1); }
    hide LcsLen, Edits, Kept;
    if i < |a| && j < |b| && key(a[i]) == key(b[j]) {
      KeptCount(a, b, key, i + 1, j + 1);
      SidesCons(Keep(a[i], b[j]), Edits(a, b, key, i + 1, j + 1));
    } else if i < |a| && (j == |b| || LcsLen(a, b, key, i + 1, j) >= LcsLen(a, b, key, i, j + 1)) {
      KeptCount(a, b, key, i + 1, j);
      SidesCons(Drop(a[i]), Edits(a, b, key, i + 1, j));
    } else if j < |b| {
      KeptCount(a, b, key, i, j + 1);
      SidesCons(Insert(b[j]), Edits(a, b, key, i, j + 1));
    } else {
      NothingKept<T>();
    }
  }

  /** What one turn of the traceback appends. */
  lemma EditsTurn<T, K>(a: seq<T>, b: seq<T>, key: T -> K, i: nat, j: nat)
    requires i <= |a| && j <= |b|
    ensures Edits(a, b, key, i, j) ==
              if i < |a| && j < |b| && key(a[i]) == key(b[j]) then [Keep(a[i], b[j])] + Edits(a, b, key, i + 1, j + 1)
              else if i < |a| && (j == |b| || LcsLen(a, b, key, i + 1, j) >= LcsLen(a, b, key, i, j + 1)) then
                [Drop(a[i])] + Edits(a, b, key, i + 1, j)
              else if j < |b| then [Insert(b[j])] + Edits(a, b, key, i, j + 1)
              else []
  {
    hide LcsLen;
  }

  lemma NothingKept<T>()
    ensures Kept<T>([]) == []
  {}

  lemma {:induction false} KeysLength<T, K>(s: seq<T>, key: T -> K)
    ensures |KeysOf(s, key)| == |s|
  {
    if |s| > 0 { KeysLength(s[1..], key); }
  }

  lemma KeysCons<T, K>(x: T, s: seq<T>, key: T -> K)
    ensures KeysOf([x] + s, key) == [key(x)] + KeysOf(s, key)
  {
    assert ([x] + s)[1..] == s;
  }

  /** What a script keeps is a subsequence of its A side, and of its B side
      when kept elements share a key. */
  lemma {:induction false} KeptWithinA<T, K>(es: seq<Edit<T>>, a: seq<T>, key: T -> K, i: nat)
    requires i <= |a| && ASide(es) == a[i..]
    ensures IsSubsequence(KeysOf(Kept(es), key), a, key, i)
  {
    if |es| > 0 {
      if es[0].Insert? {
        KeptWithinA(es[1..], a, key, i);
      } else {
        SliceCons(a, i);
        assert es[0].a == a[i] && ASide(es[1..]) == a[i + 1..];
        KeptWithinA(es[1..], a, key, i + 1);
        KeysCons(a[i], Kept(es[1..]), key);
        SubsequenceCons(KeysOf(Kept(es[1..]), key), a, key, i);
      }
    }
  }

  lemma {:induction false} KeptWithinB<T, K>(es: seq<Edit<T>>, b: seq<T>, key: T -> K, j: nat)
    requires j <= |b| && BSide(es) == b[j..]
    requires forall e :: e in es && e.Keep? ==> key(e.a) == key(e.b)
    ensures IsSubsequence(KeysOf(Kept(es), key), b, key, j)
  {
    if |es| > 0 {
      assert es[0] in es;
      if es[0].Drop? {
        KeptWithinB(es[1..], b, key, j);
      } else {
        SliceCons(b, j);
        assert es[0].b == b[j] && BSide(es[1..]) == b[j + 1..];
        KeptWithinB(es[1..], b, key, j + 1);
        if es[0].Keep? { KeysCons(es[0].a, Kept(es[1..]), key); }
        SubsequenceCons(KeysOf(Kept(es[1..]), key), b, key, j);
      }
    }
  }

  /** What the table's corner means: the traceback keeps a common subsequence
      of the two key lists, and no common subsequence is longer. */
  lemma EditsAreOptimal<T, K(!new)>(a: seq<T>, b: seq<T>, key: T -> K)
    ensures var c := KeysOf(Kept(Edits(a, b, key, 0, 0)), key);
            && IsSubsequence(c, a, key, 0) && IsSubsequence(c, b, key, 0)
            && |c| == |Kept(Edits(a, b, key, 0, 0))|
            && forall d :: IsSubsequence(d, a, key, 0) && IsSubsequence(d, b, key, 0) ==> |d| <= |c|
  {
    var es := Edits(a, b, key, 0, 0);
    EditsLossless(a, b, key, 0, 0);
    KeepsShareKey(a, b, key, 0, 0);
    KeptWithinA(es, a, key, 0);
    KeptWithinB(es, b, key, 0);
    KeptCount(a, b, key, 0, 0);
    KeysLength(Kept(es), key);
    forall d | IsSubsequence(d, a, key, 0) && IsSubsequence(d, b, key, 0)
      ensures |d| <= LcsLen(a, b, key, 0, 0)
    {
      CommonIsShorter(d, a, b, key, 0, 0);
    }
  }

  /** Swapping the two sides keeps as many elements. */
  lemma {:induction false} LcsSymmetric<T, K>(a: seq<T>, b: seq<T>, key: T -> K, i: nat, j: nat)
    requires i <= |a| && j <= |b|
    ensures LcsLen(a, b, key, i, j) == LcsLen(b, a, key, j, i)
    decreases |a| - i + |b| - j
  {
    if i < |a| && j < |b| {
      LcsSymmetric(a, b, key, i + 1, j + 1);
      LcsSymmetric(a, b, key, i + 1, j);
      LcsSymmetric(a, b, key, i, j + 1);
    }
  }
}
