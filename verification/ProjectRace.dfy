/** Looking a project up and adding it are two statements: requests of one tenant can come between. */
module ProjectRace {
  import opened Db
  import opened Cloud

  datatype At = Looking | Missed | Done(id: Ulid)

  /** A request that asks for a project of its tenant by name. */
  datatype Asker = Asker(tenant: Tenant, name: string, at: At)

  datatype Race = Race(projects: seq<(Tenant, Project)>, askers: seq<Asker>, next: Ulid)

  datatype Step = Look(i: nat) | Insert(i: nat)

  predicate Enabled(s: Race, m: Step) {
    && m.i < |s.askers|
    && match m case Look(i) => s.askers[i].at == Looking case Insert(i) => s.askers[i].at == Missed
  }

  function Next(s: Race, m: Step): Race
    requires Enabled(s, m)
  {
    var i, a := m.i, s.askers[m.i];
    match m
    case Look(_) =>
      var found := ResolveProject(ProjectsOf(s.projects, a.tenant), a.name);
      s.(askers := s.askers[i := a.(at := if found.Some? then Done(found.value) else Missed)])
    case Insert(_) =>
      Race(s.projects + [(a.tenant, Project(s.next, a.name))], s.askers[i := a.(at := Done(s.next))], s.next + 1)
  }

  ghost predicate Possible(s: Race, ms: seq<Step>)
    decreases |ms|
  {
    |ms| == 0 || (Enabled(s, ms[0]) && Possible(Next(s, ms[0]), ms[1..]))
  }

  function Reached(s: Race, ms: seq<Step>): Race
    requires Possible(s, ms)
    decreases |ms|
  {
    if |ms| == 0 then s else Reached(Next(s, ms[0]), ms[1..])
  }

  predicate Named(row: (Tenant, Project), t: Tenant, name: string) { row.0 == t && row.1.name == name }

  ghost predicate Stored(ps: seq<(Tenant, Project)>, t: Tenant, name: string) {
    exists k :: 0 <= k < |ps| && Named(ps[k], t, name)
  }

  /** No tenant has two projects of one name. */
  ghost predicate Unique(ps: seq<(Tenant, Project)>) {
    forall i, j :: 0 <= i < j < |ps| ==> !Named(ps[j], ps[i].0, ps[i].1.name)
  }

  /** The request adds a project that another one has added since it looked. */
  ghost predicate Overtaken(s: Race, m: Step)
    requires Enabled(s, m)
  {
    m.Insert? && Stored(s.projects, s.askers[m.i].tenant, s.askers[m.i].name)
  }

  ghost predicate SomeOvertaken(s: Race, ms: seq<Step>)
    requires Possible(s, ms)
    decreases |ms|
  {
    |ms| > 0 && (Overtaken(s, ms[0]) || SomeOvertaken(Next(s, ms[0]), ms[1..]))
  }

  lemma StepUnique(s: Race, m: Step)
    requires Enabled(s, m)
    ensures Unique(Next(s, m).projects) <==> Unique(s.projects) && !Overtaken(s, m)
  {
    hide ProjectsOf, ResolveProject;
    if m.Insert? {
      var a := s.askers[m.i];
      var row := (a.tenant, Project(s.next, a.name));
      var all := s.projects + [row];
      if k :| 0 <= k < |s.projects| && Named(s.projects[k], a.tenant, a.name) {
        assert all[k] == s.projects[k] && Named(all[|s.projects|], all[k].0, all[k].1.name);
      }
      if Unique(all) {
        forall i, j | 0 <= i < j < |s.projects| ensures !Named(s.projects[j], s.projects[i].0, s.projects[i].1.name) {
          assert all[i] == s.projects[i] && all[j] == s.projects[j];
        }
      }
    }
  }

  /** Names stay unique exactly if no request is ever overtaken. */
  lemma {:induction false} UniqueIffNotOvertaken(s: Race, ms: seq<Step>)
    requires Possible(s, ms)
    ensures Unique(Reached(s, ms).projects) <==> Unique(s.projects) && !SomeOvertaken(s, ms)
    decreases |ms|
  {
    hide Next, Enabled, Unique, Overtaken;
    if |ms| > 0 {
      StepUnique(s, ms[0]);
      UniqueIffNotOvertaken(Next(s, ms[0]), ms[1..]);
    }
  }

  // ---------- one request at a time ----------

  /** No two requests for one name of one tenant are between looking and adding. */
  ghost predicate OneAtATime(s: Race) {
    forall i, j :: 0 <= i < j < |s.askers| && s.askers[i].at == Missed && s.askers[j].at == Missed ==>
      s.askers[i].tenant != s.askers[j].tenant || s.askers[i].name != s.askers[j].name
  }

  ghost predicate AlwaysOne(s: Race, ms: seq<Step>)
    requires Possible(s, ms)
    decreases |ms|
  {
    OneAtATime(s) && (|ms| == 0 || AlwaysOne(Next(s, ms[0]), ms[1..]))
  }

  /** What a request missed is still missing. */
  ghost predicate StillMissing(s: Race) {
    forall i :: 0 <= i < |s.askers| && s.askers[i].at == Missed ==>
      !Stored(s.projects, s.askers[i].tenant, s.askers[i].name)
  }

  lemma {:induction false} FoundIffStored(ps: seq<(Tenant, Project)>, t: Tenant, name: string)
    ensures ResolveProject(ProjectsOf(ps, t), name).Some? <==> Stored(ps, t, name)
  {
    hide Unnamed;
    if |ps| > 0 {
      FoundIffStored(ps[1..], t, name);
      if Stored(ps[1..], t, name) {
        var k :| 0 <= k < |ps[1..]| && Named(ps[1..][k], t, name);
        assert Named(ps[k + 1], t, name);
      }
      if k :| 0 <= k < |ps| && Named(ps[k], t, name) {
        assert k > 0 ==> Named(ps[1..][k - 1], t, name);
      }
      var tail := ProjectsOf(ps[1..], t);
      assert ProjectsOf(ps, t) == if ps[0].0 == t then [ps[0].1] + tail else tail;
      assert ps[0].0 == t ==> ([ps[0].1] + tail)[1..] == tail;
    }
  }

  lemma StoredGrows(ps: seq<(Tenant, Project)>, row: (Tenant, Project), t: Tenant, name: string)
    ensures Stored(ps + [row], t, name) <==> Stored(ps, t, name) || Named(row, t, name)
  {
    var all := ps + [row];
    if k :| 0 <= k < |ps| && Named(ps[k], t, name) { assert Named(all[k], t, name); }
    if Named(row, t, name) { assert Named(all[|ps|], t, name); }
    if k :| 0 <= k < |all| && Named(all[k], t, name) { assert k < |ps| ==> Named(ps[k], t, name); }
  }

  lemma StepMisses(s: Race, m: Step)
    requires Enabled(s, m) && OneAtATime(s) && StillMissing(s)
    ensures StillMissing(Next(s, m)) && !Overtaken(s, m)
  {
    hide ProjectsOf, ResolveProject, Stored;
    var a := s.askers[m.i];
    FoundIffStored(s.projects, a.tenant, a.name);
    var t := Next(s, m);
    forall i | 0 <= i < |t.askers| && t.askers[i].at == Missed
      ensures !Stored(t.projects, t.askers[i].tenant, t.askers[i].name)
    {
      if m.Insert? {
        StoredGrows(s.projects, (a.tenant, Project(s.next, a.name)), t.askers[i].tenant, t.askers[i].name);
      }
    }
  }

  /** As long as that is so, names stay unique: this is what one lock for all
      requests of a tenant would ensure. */
  lemma {:induction false} OneAtATimeUnique(s: Race, ms: seq<Step>)
    requires Possible(s, ms) && AlwaysOne(s, ms) && StillMissing(s) && Unique(s.projects)
    ensures Unique(Reached(s, ms).projects)
    decreases |ms|
  {
    hide Next, Enabled, Unique, Overtaken, OneAtATime, StillMissing;
    if |ms| > 0 {
      StepMisses(s, ms[0]);
      StepUnique(s, ms[0]);
      OneAtATimeUnique(Next(s, ms[0]), ms[1..]);
    }
  }

  /** Under a lock of its own each, two requests of one tenant for a new name can
      both look before either adds: the name is then stored twice. */
  lemma TwoRequestsStoreTwice(s: Race, i: nat, j: nat)
    requires i < |s.askers| && j < |s.askers| && i != j
    requires s.askers[i] == s.askers[j] && s.askers[i].at == Looking
    requires !Stored(s.projects, s.askers[i].tenant, s.askers[i].name)
    ensures var ms := [Look(i), Look(j), Insert(i), Insert(j)];
            Possible(s, ms) && !Unique(Reached(s, ms).projects)
  {
    var ms := [Look(i), Look(j), Insert(i), Insert(j)];
    var a := s.askers[i];
    FoundIffStored(s.projects, a.tenant, a.name);
    hide ProjectsOf, ResolveProject, Stored, Unique, Overtaken;
    var s1 := Next(s, ms[0]);
    var s2 := Next(s1, ms[1]);
    var s3 := Next(s2, ms[2]);
    var s4 := Next(s3, ms[3]);
    assert ms[1..] == [Look(j), Insert(i), Insert(j)] && ms[1..][1..] == [Insert(i), Insert(j)];
    assert ms[1..][1..][1..] == [Insert(j)];
    LastStep(s3, Insert(j));
    assert Possible(s2, [Insert(i), Insert(j)]) && Reached(s2, [Insert(i), Insert(j)]) == s4;
    assert Possible(s1, ms[1..]) && Reached(s1, ms[1..]) == s4;
    StoredGrows(s2.projects, (a.tenant, Project(s2.next, a.name)), a.tenant, a.name);
    assert Overtaken(s3, Insert(j)) by { OvertakenIs(s3, j); }
    StepUnique(s3, Insert(j));
  }

  lemma LastStep(s: Race, m: Step)
    requires Enabled(s, m)
    ensures Possible(s, [m]) && Reached(s, [m]) == Next(s, m)
  {
    assert [m][1..] == [] && Possible(Next(s, m), []) && Reached(Next(s, m), []) == Next(s, m);
  }

  lemma OvertakenIs(s: Race, j: nat)
    requires Enabled(s, Insert(j)) && Stored(s.projects, s.askers[j].tenant, s.askers[j].name)
    ensures Overtaken(s, Insert(j))
  {}
}
