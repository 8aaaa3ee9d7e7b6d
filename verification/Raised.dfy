/** An agent that lets an exception out: the diff of its two runs points at the root, not at the call. */
module Raised {
  import opened Spans
  import opened Closings
  import opened Ingest
  import opened Recording
  import opened Replay
  import opened ReplayLaws
  import Diff

  const ENDED := Closing(None, map[])
  const RAISED := Closing(Some((2, "cannot fulfill")), map[])

  /** Looks something up and, unless it gets the good answer, raises out of its
      root span. */
  function OrderBot(tool: string, good: string): Agent {
    (rs: seq<Response>) =>
      if |rs| == 0 then Decision([], Tool(tool, None))
      else Decision([ENDED, if rs[0] == Answer(good) then ENDED else RAISED], Done)
  }

  function OneCall(tool: string, answer: string): seq<Event> {
    [Event(Tool(tool, None), Answer(answer))]
  }

  lemma OneCallRun(tool: string, good: string, answer: string)
    ensures var agent, es := OrderBot(tool, good), OneCall(tool, answer);
            && Finished(agent, es) && Bracketed(agent, es)
            && ClosingOf(agent, es, 0) == (if answer == good then ENDED else RAISED)
  {
    var agent, es := OrderBot(tool, good), OneCall(tool, answer);
    assert es[..0] == [] && Responses(es[..0]) == [] && es[..1] == es && Responses(es) == [Answer(answer)];
    assert OpenAt(agent, es, 0) == [0] && ClosesAt(agent, es, 0) == [];
    assert OpenAt(agent, es, 1) == [0, 1];
    assert BracketedAt(agent, es, 0) && BracketedAt(agent, es, 1);
    assert ClosingFrom(agent, es, 0, 1) == ClosesAt(agent, es, 1)[1];
    assert ClosingFrom(agent, es, 0, 0) == ClosingFrom(agent, es, 0, 1);
  }

  /** With the good answer laid over the bad one, the run with the good answer is
      the replay, and the one call is the first to be answered differently. */
  lemma EditedReplay(tool: string, good: string, bad: string, m: Manifest, live: Live)
    requires bad != good
    ensures var w, agent := Mutate(m, tool, good), OrderBot(tool, good);
            var es, rs := OneCall(tool, bad), OneCall(tool, good);
            IsReplay(agent, w, live, rs) && FirstUnpinned(w, live, es, 0) == 0 && !FailsTwice(w, live, es)
  {
    OneCallRun(tool, good, good);
    var w, es, rs := Mutate(m, tool, good), OneCall(tool, bad), OneCall(tool, good);
    assert Gets(w, live, rs, 0) && !Gets(w, live, es, 0);
  }

  /** The diff of the recording and this replay points at the root, position 0,
      although the call that was edited is at position 1. */
  lemma DiffPointsAtRoot(h: Host, tool: string, good: string, bad: string, s: Session, u: Session)
    requires bad != good && WellStamped(s, OneCall(tool, bad)) && WellStamped(u, OneCall(tool, good))
    requires s.title == u.title && s.entrypoint == u.entrypoint
    requires EndsAs(OrderBot(tool, good), OneCall(tool, bad), s) && EndsAs(OrderBot(tool, good), OneCall(tool, good), u)
    ensures var a, b := Rows(h, s, OneCall(tool, bad)), Rows(h, u, OneCall(tool, good));
            Diff.FirstDivergence(Diff.Alignment(a, b, Diff.Key)) == Some(0)
  {
    var es, rs := OneCall(tool, bad), OneCall(tool, good);
    assert s.stamps[0].close == RAISED by { OneCallRun(tool, good, bad); }
    assert u.stamps[0].close == ENDED by { OneCallRun(tool, good, good); }
    assert !Alike(s, u, es, 0);
    assert FirstUnlike(s, u, es, 0, 0) == 0;
    assert PartAt(es, rs, 0) && es[..0] == rs[..0];
    hide *;
    DiffOfRuns(h, s, es, u, rs, 0);
  }
}
