/** The store lock, shared by branches, exports and readers; replay subprocesses export through it too. */
module LockProtocol {
  import opened Spans

  // The gRPC server runs at most this many exports at a time.
  const WORKERS: nat := 4

  datatype BranchAt = Wants | Building | Running | Over

  datatype ExportAt = Unsent | Queued | Asks | Ingesting | Handled

  datatype ReaderAt = Waits | Reading | Answered

  /** A request in flight. An export is sent by some branch's replay process or,
      without an owner, by an agent outside; its sender waits for the answer until
      its deadline has passed. */
  datatype Task =
    | Branch(b: BranchAt)
    | Export(e: ExportAt, owner: Option<nat>, waiting: bool)
    | Reader(r: ReaderAt)

  datatype State = State(tasks: seq<Task>, holder: Option<nat>)

  /** The code releases the lock before the subprocess starts; the design it
      warns of keeps it until the subprocess has ended. */
  datatype Design = Releases | Keeps

  datatype Move =
    | Take(i: nat)      // a waiting task gets the free lock
    | Finish(i: nat)    // the holder is done: manifest built, batch ingested, reply ready
    | Refuse(i: nat)    // the manifest cannot be built
    | Send(i: nat)      // an export leaves its process
    | Pick(i: nat)      // a worker picks up a queued export
    | GiveUp(i: nat)    // the deadline of an export passes: its sender goes on without an answer
    | Exit(i: nat)      // the subprocess has ended by itself
    | Timeout(i: nat)   // the subprocess is killed

  predicate Asking(t: Task) { t == Branch(Wants) || (t.Export? && t.e == Asks) || t == Reader(Waits) }

  predicate Holding(t: Task) { t == Branch(Building) || (t.Export? && t.e == Ingesting) || t == Reader(Reading) }

  /** The lock is this task's. */
  predicate InLock(d: Design, t: Task) { Holding(t) || (d == Keeps && t == Branch(Running)) }

  predicate Ended(t: Task) {
    match t case Branch(b) => b == Over case Export(e, _, _) => e == Handled case Reader(r) => r == Answered
  }

  function Taken(t: Task): Task
    requires Asking(t)
  {
    match t
    case Branch(_) => Branch(Building)
    case Export(_, o, w) => Export(Ingesting, o, w)
    case Reader(_) => Reader(Reading)
  }

  function Finished(t: Task): Task
    requires Holding(t)
  {
    match t
    case Branch(_) => Branch(Running)
    case Export(_, o, w) => Export(Handled, o, w)
    case Reader(_) => Reader(Answered)
  }

  predicate IsOwn(t: Task, i: nat) { t.Export? && t.owner == Some(i) }

  /** What the process of branch i had not sent when it ended is never sent. */
  function Dropped(tasks: seq<Task>, i: nat): (r: seq<Task>)
    ensures |r| == |tasks|
    ensures forall k :: 0 <= k < |tasks| ==>
              r[k] == if IsOwn(tasks[k], i) && tasks[k].e == Unsent then tasks[k].(e := Handled) else tasks[k]
  {
    seq(|tasks|, k requires 0 <= k < |tasks| =>
      if IsOwn(tasks[k], i) && tasks[k].e == Unsent then tasks[k].(e := Handled) else tasks[k])
  }

  function Busy(tasks: seq<Task>): nat {
    if |tasks| == 0 then 0
    else (if tasks[0].Export? && tasks[0].e in {Asks, Ingesting} then 1 else 0) + Busy(tasks[1..])
  }

  /** The sender is done with the export: it was answered or given up. */
  predicate Settled(t: Task) { t.Export? && (t.e == Handled || !t.waiting) }

  /** A process sends its exports one at a time, each after the one before was
      answered or given up; an outside agent's may come at any time. */
  predicate MaySend(s: State, i: nat)
    requires i < |s.tasks| && s.tasks[i].Export?
  {
    match s.tasks[i].owner
    case None => true
    case Some(b) =>
      && b < |s.tasks| && s.tasks[b] == Branch(Running)
      && forall j :: 0 <= j < i && IsOwn(s.tasks[j], b) ==> Settled(s.tasks[j])
  }

  predicate Enabled(s: State, m: Move) {
    && m.i < |s.tasks|
    && match m
       case Take(i) => Asking(s.tasks[i]) && s.holder == None
       case Finish(i) => Holding(s.tasks[i])
       case Refuse(i) => s.tasks[i] == Branch(Building)
       case Send(i) => s.tasks[i].Export? && s.tasks[i].e == Unsent && MaySend(s, i)
       case Pick(i) => s.tasks[i].Export? && s.tasks[i].e == Queued && Busy(s.tasks) < WORKERS
       case GiveUp(i) => s.tasks[i].Export? && s.tasks[i].e !in {Unsent, Handled} && s.tasks[i].waiting
       case Exit(i) =>
         s.tasks[i] == Branch(Running)
         && forall j :: 0 <= j < |s.tasks| && IsOwn(s.tasks[j], i) ==> Settled(s.tasks[j])
       case Timeout(i) => s.tasks[i] == Branch(Running)
  }

  function Step(d: Design, s: State, m: Move): State
    requires Enabled(s, m)
  {
    var i, t := m.i, s.tasks[m.i];
    match m
    case Take(_) => State(s.tasks[i := Taken(t)], Some(i))
    case Finish(_) => State(s.tasks[i := Finished(t)], if d == Keeps && t.Branch? then s.holder else None)
    case Refuse(_) => State(Dropped(s.tasks[i := Branch(Over)], i), None)
    case Send(_) => State(s.tasks[i := t.(e := Queued)], s.holder)
    case Pick(_) => State(s.tasks[i := t.(e := Asks)], s.holder)
    case GiveUp(_) => State(s.tasks[i := t.(waiting := false)], s.holder)
    case _ => State(Dropped(s.tasks[i := Branch(Over)], i), if d == Keeps then None else s.holder)
  }

  /** Nothing has started; an export with an owner belongs to a branch. */
  ghost predicate Init(s: State) {
    && s.holder == None
    && forall i :: 0 <= i < |s.tasks| ==>
         match s.tasks[i]
         case Branch(b) => b == Wants
         case Export(e, owner, waiting) =>
           e == Unsent && waiting && (owner.Some? ==> owner.value < |s.tasks| && s.tasks[owner.value].Branch?)
         case Reader(r) => r == Waits
  }

  ghost predicate Possible(s: State, ms: seq<Move>, d: Design)
    decreases |ms|
  {
    |ms| == 0 || (Enabled(s, ms[0]) && Possible(Step(d, s, ms[0]), ms[1..], d))
  }

  function Reached(s: State, ms: seq<Move>, d: Design): State
    requires Possible(s, ms, d)
    decreases |ms|
  {
    if |ms| == 0 then s else Reached(Step(d, s, ms[0]), ms[1..], d)
  }

  // ---------- what every step keeps ----------

  /** The lock is held by exactly the task inside it, if any; the pool is never
      over its size; an export was only sent by a running process. */
  ghost predicate Safe(d: Design, s: State) {
    && LockHeld(d, s)
    && Busy(s.tasks) <= WORKERS
    && (forall i :: 0 <= i < |s.tasks| ==> OwnerKnown(s, i))
  }

  ghost predicate LockHeld(d: Design, s: State) {
    && (s.holder.Some? ==> s.holder.value < |s.tasks|)
    && forall i :: 0 <= i < |s.tasks| ==> (InLock(d, s.tasks[i]) <==> s.holder == Some(i))
  }

  ghost predicate OwnerKnown(s: State, i: nat)
    requires i < |s.tasks|
  {
    s.tasks[i].Export? && s.tasks[i].owner.Some? ==>
      var b := s.tasks[i].owner.value;
      && b < |s.tasks| && s.tasks[b].Branch?
      && (s.tasks[b].b in {Wants, Building} ==> s.tasks[i].e == Unsent)
      && (s.tasks[b].b == Over ==> s.tasks[i].e != Unsent)
      && (s.tasks[i].e == Unsent ==> s.tasks[i].waiting)
  }

  lemma {:induction false} BusyUpdate(tasks: seq<Task>, i: nat, t: Task)
    requires i < |tasks|
    ensures Busy(tasks[i := t]) + (if tasks[i].Export? && tasks[i].e in {Asks, Ingesting} then 1 else 0)
            == Busy(tasks) + (if t.Export? && t.e in {Asks, Ingesting} then 1 else 0)
  {
    if i > 0 {
      assert tasks[i := t][1..] == tasks[1..][i - 1 := t];
      BusyUpdate(tasks[1..], i - 1, t);
    } else {
      assert tasks[0 := t][1..] == tasks[1..];
    }
  }

  lemma {:induction false} BusyDropped(tasks: seq<Task>, i: nat)
    ensures Busy(Dropped(tasks, i)) == Busy(tasks)
  {
    if |tasks| > 0 {
      assert Dropped(tasks, i)[1..] == Dropped(tasks[1..], i);
      BusyDropped(tasks[1..], i);
    }
  }

  lemma StepOwners(d: Design, s: State, m: Move)
    requires Safe(d, s) && Enabled(s, m)
    ensures var t := Step(d, s, m); forall i :: 0 <= i < |t.tasks| ==> OwnerKnown(t, i)
  {
    hide Busy, MaySend;
    var t := Step(d, s, m);
    SenderRuns(s, m);
    forall i | 0 <= i < |t.tasks| ensures OwnerKnown(t, i) {
      assert OwnerKnown(s, i);
    }
  }

  lemma SenderRuns(s: State, m: Move)
    requires Enabled(s, m)
    ensures m.Send? && s.tasks[m.i].owner.Some? ==>
              s.tasks[m.i].owner.value < |s.tasks| && s.tasks[s.tasks[m.i].owner.value] == Branch(Running)
  {}

  lemma StepBusy(d: Design, s: State, m: Move)
    requires Busy(s.tasks) <= WORKERS && Enabled(s, m)
    ensures Busy(Step(d, s, m).tasks) <= WORKERS
  {
    hide Busy, MaySend;
    var i := m.i;
    if m.Take? {
      BusyUpdate(s.tasks, i, Taken(s.tasks[i]));
    } else if m.Finish? {
      BusyUpdate(s.tasks, i, Finished(s.tasks[i]));
    } else if m.Send? {
      BusyUpdate(s.tasks, i, s.tasks[i].(e := Queued));
    } else if m.Pick? {
      BusyUpdate(s.tasks, i, s.tasks[i].(e := Asks));
    } else if m.GiveUp? {
      BusyUpdate(s.tasks, i, s.tasks[i].(waiting := false));
    } else {
      BusyUpdate(s.tasks, i, Branch(Over));
      BusyDropped(s.tasks[i := Branch(Over)], i);
    }
  }

  lemma StepLock(d: Design, s: State, m: Move)
    requires LockHeld(d, s) && Enabled(s, m)
    ensures LockHeld(d, Step(d, s, m))
  {
    hide Busy, MaySend, Dropped;
    var t, i := Step(d, s, m), m.i;
    forall k | 0 <= k < |t.tasks| && k != i ensures InLock(d, t.tasks[k]) <==> InLock(d, s.tasks[k]) {}
    assert InLock(d, s.tasks[i]) <==> s.holder == Some(i);
    assert InLock(d, t.tasks[i]) <==> t.holder == Some(i);
  }

  lemma StepSafe(d: Design, s: State, m: Move)
    requires Safe(d, s) && Enabled(s, m)
    ensures Safe(d, Step(d, s, m)) && |Step(d, s, m).tasks| == |s.tasks|
  {
    StepOwners(d, s, m);
    StepBusy(d, s, m);
    StepLock(d, s, m);
    hide OwnerKnown, Busy, MaySend, LockHeld;
  }

  /** Mutual exclusion in every reachable state: whoever is inside the lock is
      its one holder; and as the code is, that is never a branch whose
      subprocess is running. */
  lemma {:induction false} AlwaysSafe(d: Design, s: State, ms: seq<Move>)
    requires Safe(d, s) && Possible(s, ms, d)
    ensures Safe(d, Reached(s, ms, d))
    decreases |ms|
  {
    hide Safe, Step, Enabled;
    if |ms| > 0 {
      StepSafe(d, s, ms[0]);
      AlwaysSafe(d, Step(d, s, ms[0]), ms[1..]);
    }
  }

  lemma {:induction false} NoneBusy(tasks: seq<Task>)
    requires forall k :: 0 <= k < |tasks| ==> !(tasks[k].Export? && tasks[k].e in {Asks, Ingesting})
    ensures Busy(tasks) == 0
  {
    if |tasks| > 0 { NoneBusy(tasks[1..]); }
  }

  lemma InitSafe(d: Design, s: State)
    requires Init(s)
    ensures Safe(d, s)
  {
    NoneBusy(s.tasks);
  }

  lemma MutualExclusion(s: State, ms: seq<Move>, i: nat, j: nat)
    requires Init(s) && Possible(s, ms, Releases)
    requires var t := Reached(s, ms, Releases); i < |t.tasks| && j < |t.tasks| && Holding(t.tasks[i])
    ensures var t := Reached(s, ms, Releases);
            && t.holder == Some(i) && (Holding(t.tasks[j]) ==> i == j)
            && (t.tasks[j] == Branch(Running) ==> t.holder != Some(j))
  {
    InitSafe(Releases, s);
    AlwaysSafe(Releases, s, ms);
  }

  /** The exports that occupy a worker. */
  ghost function Served(tasks: seq<Task>): set<nat> {
    set i: nat | i < |tasks| && tasks[i].Export? && tasks[i].e in {Asks, Ingesting}
  }

  lemma {:induction false} BusyLast(tasks: seq<Task>, t: Task)
    ensures Busy(tasks + [t]) == Busy(tasks) + if t.Export? && t.e in {Asks, Ingesting} then 1 else 0
  {
    if |tasks| > 0 {
      assert (tasks + [t])[1..] == tasks[1..] + [t];
      BusyLast(tasks[1..], t);
    } else {
      assert (tasks + [t])[1..] == [];
    }
  }

  lemma {:induction false} BusyCounts(tasks: seq<Task>)
    ensures |Served(tasks)| == Busy(tasks)
  {
    if |tasks| > 0 {
      var n := |tasks| - 1;
      assert tasks == tasks[..n] + [tasks[n]];
      BusyLast(tasks[..n], tasks[n]);
      BusyCounts(tasks[..n]);
      assert Served(tasks) == Served(tasks[..n]) + if n in Served(tasks) then {n} else {};
    }
  }

  /** In every reachable state at most four exports are being served, and a queued one
      is picked up exactly if fewer are. */
  lemma PoolOfFour(d: Design, s: State, ms: seq<Move>, i: nat)
    requires Init(s) && Possible(s, ms, d)
    ensures var t := Reached(s, ms, d);
            && |Served(t.tasks)| <= 4
            && (Enabled(t, Pick(i)) <==>
                  i < |t.tasks| && t.tasks[i].Export? && t.tasks[i].e == Queued && |Served(t.tasks)| < 4)
  {
    InitSafe(d, s);
    AlwaysSafe(d, s, ms);
    BusyCounts(Reached(s, ms, d).tasks);
    hide Reached, Busy, Served, Possible, Init;
  }

  /** The later of two exports of one process is under way only once the sender is
      done with the earlier one. */
  ghost predicate InTurn(s: State, i: nat, j: nat)
    requires i < j < |s.tasks|
  {
    var x, y := s.tasks[i], s.tasks[j];
    x.Export? && y.Export? && x.owner.Some? && x.owner == y.owner && y.e in {Queued, Asks, Ingesting} ==>
      x.e == Handled || !x.waiting
  }

  lemma StepInTurn(d: Design, s: State, m: Move, i: nat, j: nat)
    requires Enabled(s, m) && i < j < |s.tasks| && InTurn(s, i, j)
    ensures |Step(d, s, m).tasks| == |s.tasks| && InTurn(Step(d, s, m), i, j)
  {
    hide Busy;
  }

  /** Exports of one process come one at a time, in order, in every reachable state. */
  lemma {:induction false} OneExportAtATime(d: Design, s: State, ms: seq<Move>, i: nat, j: nat)
    requires i < j < |s.tasks| && (Init(s) || InTurn(s, i, j)) && Possible(s, ms, d)
    ensures |Reached(s, ms, d).tasks| == |s.tasks| && InTurn(Reached(s, ms, d), i, j)
    decreases |ms|
  {
    assert InTurn(s, i, j);
    hide Init, Step, Enabled, InTurn;
    if |ms| > 0 {
      StepInTurn(d, s, ms[0], i, j);
      OneExportAtATime(d, Step(d, s, ms[0]), ms[1..], i, j);
    }
  }

  // ---------- progress ----------

  ghost predicate AllEnded(s: State) {
    forall i :: 0 <= i < |s.tasks| ==> Ended(s.tasks[i])
  }

  /** The first export of a branch's process that is still to be answered. */
  function FirstOpen(tasks: seq<Task>, b: nat, k: nat): (r: nat)
    requires k <= |tasks|
    ensures k <= r <= |tasks|
    ensures forall j :: k <= j < r && IsOwn(tasks[j], b) ==> Settled(tasks[j])
    ensures r < |tasks| ==> IsOwn(tasks[r], b) && !Settled(tasks[r])
    decreases |tasks| - k
  {
    if k == |tasks| || (IsOwn(tasks[k], b) && !Settled(tasks[k])) then k else FirstOpen(tasks, b, k + 1)
  }

  /** As the code is, while anything is unfinished some step can be taken that
      is neither the killing of a subprocess nor the giving up of an export. */
  lemma Progress(s: State)
    requires Safe(Releases, s) && !AllEnded(s)
    ensures exists m :: Enabled(s, m) && !m.Timeout? && !m.GiveUp?
  {
    hide Busy;
    if s.holder.Some? {
      assert Enabled(s, Finish(s.holder.value));
    } else if i :| 0 <= i < |s.tasks| && Asking(s.tasks[i]) {
      assert Enabled(s, Take(i));
    } else if i :| 0 <= i < |s.tasks| && s.tasks[i].Export? && s.tasks[i].e == Queued {
      NoneBusy(s.tasks);
      assert Enabled(s, Pick(i));
    } else if i :| 0 <= i < |s.tasks| && s.tasks[i] == Branch(Running) {
      var k := FirstOpen(s.tasks, i, 0);
      if k == |s.tasks| {
        assert Enabled(s, Exit(i));
      } else {
        assert Enabled(s, Send(k));
      }
    } else {
      var i :| 0 <= i < |s.tasks| && !Ended(s.tasks[i]);
      assert OwnerKnown(s, i);
      assert Enabled(s, Send(i));
    }
  }

  // ---------- termination ----------

  function Rank(t: Task): nat {
    match t
    case Branch(b) => (match b case Wants => 3 case Building => 2 case Running => 1 case Over => 0)
    case Export(e, _, waiting) =>
      (match e case Unsent => 4 case Queued => 3 case Asks => 2 case Ingesting => 1 case Handled => 0)
      + if waiting then 1 else 0
    case Reader(r) => (match r case Waits => 2 case Reading => 1 case Answered => 0)
  }

  function Left(tasks: seq<Task>): nat {
    if |tasks| == 0 then 0 else Rank(tasks[0]) + Left(tasks[1..])
  }

  lemma {:induction false} LeftShrinks(a: seq<Task>, b: seq<Task>, i: nat)
    requires |a| == |b| && i <= |a| && forall k :: 0 <= k < |a| ==> Rank(b[k]) <= Rank(a[k])
    ensures Left(b) <= Left(a) && (i < |a| && Rank(b[i]) < Rank(a[i]) ==> Left(b) < Left(a))
  {
    hide Rank;
    if |a| > 0 {
      if i == 0 { LeftShrinks(a[1..], b[1..], 0); } else { LeftShrinks(a[1..], b[1..], i - 1); }
    }
  }

  /** Every step brings the end nearer, in either design. */
  lemma StepShrinks(d: Design, s: State, m: Move)
    requires Enabled(s, m)
    ensures Left(Step(d, s, m).tasks) < Left(s.tasks)
  {
    hide MaySend, Busy, Left;
    LeftShrinks(s.tasks, Step(d, s, m).tasks, m.i);
  }

  lemma {:induction false} RunsAreShort(d: Design, s: State, ms: seq<Move>)
    requires Possible(s, ms, d)
    ensures |ms| + Left(Reached(s, ms, d).tasks) <= Left(s.tasks)
    decreases |ms|
  {
    hide Step, Enabled, Left;
    if |ms| > 0 {
      StepShrinks(d, s, ms[0]);
      RunsAreShort(d, Step(d, s, ms[0]), ms[1..]);
    }
  }

  /** Every run ends within a bound set at its start, and where no step is left
      but killing a subprocess or giving up an export, everything has finished. */
  lemma AllFinish(s: State, ms: seq<Move>)
    requires Init(s) && Possible(s, ms, Releases)
    ensures |ms| <= Left(s.tasks)
    ensures (forall m :: Enabled(Reached(s, ms, Releases), m) ==> m.Timeout? || m.GiveUp?) ==>
              AllEnded(Reached(s, ms, Releases))
  {
    hide Safe, Init, Enabled, AllEnded, Possible;
    InitSafe(Releases, s);
    AlwaysSafe(Releases, s, ms);
    RunsAreShort(Releases, s, ms);
    if !AllEnded(Reached(s, ms, Releases)) { Progress(Reached(s, ms, Releases)); }
  }

  // ---------- the design the code avoids ----------

  /** A branch sits on the lock and none of its exports has been ingested. */
  ghost predicate ShutOut(s: State, b: nat) {
    && b < |s.tasks| && s.tasks[b] == Branch(Running) && s.holder == Some(b)
    && forall j :: 0 <= j < |s.tasks| && IsOwn(s.tasks[j], b) ==> s.tasks[j].e !in {Ingesting, Handled}
  }

  /** And its process still waits for the answer to one of them. */
  ghost predicate Stalled(s: State, b: nat, e: nat) {
    ShutOut(s, b) && e < |s.tasks| && IsOwn(s.tasks[e], b) && s.tasks[e].waiting
  }

  lemma ShutOutStep(s: State, m: Move, b: nat)
    requires Safe(Keeps, s) && ShutOut(s, b) && Enabled(s, m)
    ensures Step(Keeps, s, m).tasks[b] == Branch(Over) || ShutOut(Step(Keeps, s, m), b)
    ensures m != Timeout(b) && m != Exit(b) ==> ShutOut(Step(Keeps, s, m), b)
  {
    hide Busy, MaySend, OwnerKnown;
    assert forall j :: 0 <= j < |s.tasks| && j != b ==> !InLock(Keeps, s.tasks[j]);
  }

  lemma StalledStep(s: State, m: Move, b: nat, e: nat)
    requires Safe(Keeps, s) && Stalled(s, b, e) && Enabled(s, m) && m != Timeout(b) && m != GiveUp(e)
    ensures Stalled(Step(Keeps, s, m), b, e)
  {
    ShutOutStep(s, m, b);
    hide Busy, MaySend, OwnerKnown, Safe;
    assert m.Exit? ==> m.i != b;
  }

  lemma OverStays(d: Design, s: State, m: Move, b: nat)
    requires Enabled(s, m) && b < |s.tasks| && s.tasks[b] == Branch(Over)
    ensures |Step(d, s, m).tasks| == |s.tasks| && Step(d, s, m).tasks[b] == Branch(Over)
  {
    hide Busy, MaySend;
  }

  lemma {:induction false} OverForGood(d: Design, s: State, ms: seq<Move>, b: nat)
    requires Possible(s, ms, d) && b < |s.tasks| && s.tasks[b] == Branch(Over)
    ensures b < |Reached(s, ms, d).tasks| && Reached(s, ms, d).tasks[b] == Branch(Over)
    decreases |ms|
  {
    hide Step, Enabled;
    if |ms| > 0 {
      OverStays(d, s, ms[0], b);
      OverForGood(d, Step(d, s, ms[0]), ms[1..], b);
    }
  }

  /** Were the lock kept across the subprocess, none of its exports could be
      ingested before the branch is over, however the run goes on. */
  lemma {:induction false} KeepingShutsOut(s: State, ms: seq<Move>, b: nat)
    requires Safe(Keeps, s) && ShutOut(s, b) && Possible(s, ms, Keeps)
    ensures var t := Reached(s, ms, Keeps); b < |t.tasks| && (t.tasks[b] == Branch(Over) || ShutOut(t, b))
    decreases |ms|
  {
    hide Safe, Step, Enabled, ShutOut;
    if |ms| > 0 {
      StepSafe(Keeps, s, ms[0]);
      ShutOutStep(s, ms[0], b);
      ShutOutIn(s, b);
      if ShutOut(Step(Keeps, s, ms[0]), b) {
        KeepingShutsOut(Step(Keeps, s, ms[0]), ms[1..], b);
      } else {
        OverForGood(Keeps, Step(Keeps, s, ms[0]), ms[1..], b);
      }
    } else {
      ShutOutIn(s, b);
    }
  }

  lemma ShutOutIn(s: State, b: nat)
    requires ShutOut(s, b)
    ensures b < |s.tasks|
  {}

  /** And a branch whose process has anything to export would never end by itself:
      however the run goes on, it stops, within a bound, with the branch still
      running, unless the process is killed or gives up on that export. */
  lemma {:induction false} KeepingDeadlocks(s: State, ms: seq<Move>, b: nat, e: nat)
    requires Safe(Keeps, s) && Stalled(s, b, e) && Possible(s, ms, Keeps)
    ensures Timeout(b) !in ms && GiveUp(e) !in ms ==> Stalled(Reached(s, ms, Keeps), b, e)
    ensures |ms| <= Left(s.tasks)
    decreases |ms|
  {
    hide Safe, Step, Enabled, Stalled, Left;
    RunsAreShort(Keeps, s, ms);
    if |ms| > 0 && Timeout(b) !in ms && GiveUp(e) !in ms {
      assert ms[0] in ms;
      StepSafe(Keeps, s, ms[0]);
      StalledStep(s, ms[0], b, e);
      assert forall m :: m in ms[1..] ==> m in ms;
      KeepingDeadlocks(Step(Keeps, s, ms[0]), ms[1..], b, e);
    }
  }

  /** And every branch that is let in gets there, if it has anything to send. */
  lemma KeepingStalls(s: State, b: nat, e: nat)
    requires Safe(Keeps, s) && b < |s.tasks| && s.tasks[b] == Branch(Building)
    requires e < |s.tasks| && IsOwn(s.tasks[e], b)
    ensures Enabled(s, Finish(b)) && Stalled(Step(Keeps, s, Finish(b)), b, e)
  {
    hide Busy;
    forall j | 0 <= j < |s.tasks| && IsOwn(s.tasks[j], b) ensures s.tasks[j].e == Unsent && s.tasks[j].waiting {
      assert OwnerKnown(s, j);
    }
  }
}
