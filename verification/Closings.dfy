/** Which spans of a run are open when, and how they end: decided by the responses up to then. */
module Closings {
  import opened Recording
  import opened Replay

  /** What the agent ends at its m-th turn, before it acts. */
  function ClosesAt(agent: Agent, es: seq<Event>, m: nat): seq<Closing>
    requires m <= |es|
  {
    agent(Responses(es[..m])).closes
  }

  /** The spans left open when the n innermost are ended. */
  function Kept(open: seq<nat>, n: nat): seq<nat> {
    if n <= |open| then open[..|open| - n] else []
  }

  /** The spans open when the m-th turn begins, outermost first: 0 is the root,
      and the k-th event opens span k + 1. */
  function OpenAt(agent: Agent, es: seq<Event>, m: nat): seq<nat>
    requires m <= |es|
  {
    if m == 0 then [0] else Kept(OpenAt(agent, es, m - 1), |ClosesAt(agent, es, m - 1)|) + [m]
  }

  /** Spans are opened and ended by context managers: the root stays open while
      the agent acts, and in the end everything is ended. */
  ghost predicate Bracketed(agent: Agent, es: seq<Event>) {
    forall m :: 0 <= m <= |es| ==> BracketedAt(agent, es, m)
  }

  predicate BracketedAt(agent: Agent, es: seq<Event>, m: nat)
    requires m <= |es|
  {
    var n, c := |OpenAt(agent, es, m)|, |ClosesAt(agent, es, m)|;
    if m < |es| then c < n else c == n
  }

  lemma TurnBrackets(agent: Agent, es: seq<Event>, m: nat)
    requires Bracketed(agent, es) && m <= |es|
    ensures var open, c := OpenAt(agent, es, m), |ClosesAt(agent, es, m)|;
            && (m < |es| ==> c < |open| && OpenAt(agent, es, m + 1) == open[..|open| - c] + [m + 1])
            && (m == |es| ==> c == |open|)
  {
    assert BracketedAt(agent, es, m);
  }

  /** How the span at position p of those open at turn m ends. */
  function ClosingFrom(agent: Agent, es: seq<Event>, p: nat, m: nat): Closing
    requires Bracketed(agent, es) && m <= |es| && p < |OpenAt(agent, es, m)|
    decreases |es| - m
  {
    TurnBrackets(agent, es, m);
    var n, c := |OpenAt(agent, es, m)|, ClosesAt(agent, es, m);
    if n - |c| <= p then c[n - 1 - p] else ClosingFrom(agent, es, p, m + 1)
  }

  /** How span k ends. */
  function ClosingOf(agent: Agent, es: seq<Event>, k: nat): Closing
    requires Bracketed(agent, es) && k <= |es|
  {
    ClosingFrom(agent, es, |OpenAt(agent, es, k)| - 1, k)
  }

  /** The spans of the session ended as the agent ended them. */
  ghost predicate EndsAs(agent: Agent, es: seq<Event>, s: Session) {
    && Bracketed(agent, es) && |s.stamps| == |es| + 1
    && forall k :: 0 <= k <= |es| ==> s.stamps[k].close == ClosingOf(agent, es, k)
  }

  // ---------- the same responses, the same endings ----------

  lemma SameCloses(agent: Agent, es: seq<Event>, rs: seq<Event>, n: nat, m: nat)
    requires m <= n <= |es| && n <= |rs| && es[..n] == rs[..n]
    ensures ClosesAt(agent, es, m) == ClosesAt(agent, rs, m)
  {
    assert es[..m] == es[..n][..m] == rs[..n][..m] == rs[..m];
  }

  lemma {:induction false} SameOpen(agent: Agent, es: seq<Event>, rs: seq<Event>, n: nat, m: nat)
    requires n <= |es| && n <= |rs| && es[..n] == rs[..n] && m <= n + 1 && m <= |es| && m <= |rs|
    ensures OpenAt(agent, es, m) == OpenAt(agent, rs, m)
  {
    hide ClosesAt;
    if m > 0 {
      SameOpen(agent, es, rs, n, m - 1);
      SameCloses(agent, es, rs, n, m - 1);
    }
  }

  /** A span ends alike in both runs, unless it is still open after the turn at
      which they part. */
  lemma {:induction false} SameEnding(agent: Agent, es: seq<Event>, rs: seq<Event>, n: nat, p: nat, m: nat)
    requires Bracketed(agent, es) && Bracketed(agent, rs) && n < |es| && n < |rs| && es[..n] == rs[..n]
    requires m <= n && p < |OpenAt(agent, es, m)| && p < |OpenAt(agent, rs, m)|
    ensures || ClosingFrom(agent, es, p, m) == ClosingFrom(agent, rs, p, m)
            || (p < |OpenAt(agent, es, n + 1)| && OpenAt(agent, es, n + 1)[p] == OpenAt(agent, es, m)[p])
    decreases n - m
  {
    hide ClosesAt, OpenAt, Bracketed;
    SameOpen(agent, es, rs, n, m);
    SameCloses(agent, es, rs, n, m);
    TurnBrackets(agent, es, m);
    var open, c := OpenAt(agent, es, m), ClosesAt(agent, es, m);
    if |open| - |c| > p {
      assert OpenAt(agent, es, m + 1)[p] == open[p];
      SameOpen(agent, es, rs, n, m + 1);
      TurnBrackets(agent, rs, m);
      if m < n { SameEnding(agent, es, rs, n, p, m + 1); }
    }
  }

  lemma LastOpen(agent: Agent, es: seq<Event>, m: nat)
    requires m <= |es|
    ensures var open := OpenAt(agent, es, m); |open| > 0 && open[|open| - 1] == m
  {}

  lemma FirstOpen(agent: Agent, es: seq<Event>)
    ensures OpenAt(agent, es, 0) == [0]
  {}

  /** The root is the first of the open spans, and they ascend. */
  lemma {:induction false} OpenAscends(agent: Agent, es: seq<Event>, m: nat)
    requires Bracketed(agent, es) && m <= |es|
    ensures var open := OpenAt(agent, es, m);
            open[0] == 0 && forall i, j :: 0 <= i < j < |open| ==> open[i] < open[j]
  {
    if m == 0 {
      FirstOpen(agent, es);
    } else {
      hide ClosesAt, OpenAt, Bracketed;
      OpenAscends(agent, es, m - 1);
      LastOpen(agent, es, m - 1);
      TurnBrackets(agent, es, m - 1);
    }
  }

  /** A span that is ended when two runs part ends alike in both. */
  lemma EndedAlike(agent: Agent, es: seq<Event>, rs: seq<Event>, n: nat, k: nat)
    requires Bracketed(agent, es) && Bracketed(agent, rs) && n < |es| && n < |rs| && es[..n] == rs[..n]
    requires k <= n && k !in OpenAt(agent, es, n + 1)
    ensures ClosingOf(agent, es, k) == ClosingOf(agent, rs, k)
  {
    hide OpenAt, ClosesAt;
    LastOpen(agent, es, k);
    SameOpen(agent, es, rs, n, k);
    SameEnding(agent, es, rs, n, |OpenAt(agent, es, k)| - 1, k);
  }

  /** So the first span that does not end alike is still open when they part, or
      is that of the call at which they do. */
  lemma UnlikeIsOpen(agent: Agent, s: Session, es: seq<Event>, u: Session, rs: seq<Event>, n: nat)
    requires EndsAs(agent, es, s) && EndsAs(agent, rs, u) && n < |es| && n < |rs| && es[..n] == rs[..n]
    ensures FirstUnlike(s, u, es, 0, n) in OpenAt(agent, es, n + 1)
  {
    hide OpenAt, ClosingOf, Bracketed, Alike;
    var f := FirstUnlike(s, u, es, 0, n);
    FirstUnlikeIs(s, u, es, 0, n);
    LastOpen(agent, es, n + 1);
    if f <= n && f !in OpenAt(agent, es, n + 1) {
      EndedAlike(agent, es, rs, n, f);
      SameIsAlike(s, u, es, f);
      assert false;
    }
  }

  lemma SameIsAlike(s: Session, u: Session, es: seq<Event>, k: nat)
    requires k <= |es| && k < |s.stamps| && k < |u.stamps| && s.stamps[k].close == u.stamps[k].close
    ensures Alike(s, u, es, k)
  {
    hide EventAttrs, RootAttrs;
  }

  /** Two sessions of one run end alike throughout. */
  lemma SameRunAlike(agent: Agent, s: Session, es: seq<Event>, u: Session)
    requires EndsAs(agent, es, s) && EndsAs(agent, es, u)
    ensures FirstUnlike(s, u, es, 0, |es|) == |es| + 1
  {
    hide ClosingOf, Bracketed, Alike;
    FirstUnlikeIs(s, u, es, 0, |es|);
    var f := FirstUnlike(s, u, es, 0, |es|);
    if f <= |es| {
      SameIsAlike(s, u, es, f);
      assert false;
    }
  }
}
