/**
  sgc_policy_scheduler.py, over whole runs: callbacks arriving in any order, at any times, with any
  outcome of the random choices.
 */
module SchedulerRuns {
  import opened Wrappers
  import opened SchedulerState

  /** A callback and the time it runs at. */
  datatype Call = Call(e: Event, now: real)

  /** A run: its first state, and then call after call, each with the state it leads to. */
  datatype Trace = Begin(s: State) | Then(before: Trace, call: Call, s: State) {
    function First(): State {
      if Begin? then s else before.First()
    }
  }

  ghost predicate Run(t: Trace) {
    t.Then? ==> Run(t.before) && CanStep(t.before.s) && Next(t.before.s, t.call.e, t.call.now, t.s)
  }

  // ----- Which machine has which role -----

  lemma {:induction false} FirstWithIff(machines: seq<Id>, roles: Roles, r: Role)
    ensures FirstWith(machines, roles, r).None? <==> forall m :: m in machines && m in roles ==> roles[m] != r
  {
    if |machines| > 0 {
      FirstWithIff(machines[1..], roles, r);
      assert machines == [machines[0]] + machines[1..];
    }
  }

  lemma SomeoneHas(machines: seq<Id>, roles: Roles, r: Role, m: Id)
    requires m in Elements(machines) && m in roles && roles[m] == r
    ensures FirstWith(machines, roles, r).Some?
  {
    FirstWithIff(machines, roles, r);
  }

  lemma OnlyOne(s: State, r: Role, m: Id)
    requires s.roles.Keys == Elements(s.machines) && Having(s.roles, r) == {m}
    ensures FirstWith(s.machines, s.roles, r) == Some(m)
  {
    FirstWithIff(s.machines, s.roles, r);
    assert m in Having(s.roles, r);
    var f := FirstWith(s.machines, s.roles, r);
    assert f.Some? ==> f.value in Having(s.roles, r);
  }

  /** `robot` is the one robot and has no profile, and some machine is the service. */
  ghost predicate Core(s: State, robot: Id) {
    && s.Valid()
    && Having(s.roles, Robot) == {robot} && robot !in s.profile
    && s.Current().Some?
  }

  ghost predicate Inv(s: State, robot: Id) {
    && Core(s, robot)
    && !(s.profiling && s.parallel)
    && (s.parallel ==> s.active.Some? && s.active.value in NonRobots(s.roles))
    && (!s.parallel ==> Having(s.roles, Service) == {s.Current().value})
  }

  /** A freshly loaded assignment with one robot and one service satisfies the invariant. */
  lemma InitiallyInv(s: State, robot: Id, service: Id)
    requires s.Valid() && !s.profiling && !s.parallel && s.profile == map[]
    requires Having(s.roles, Robot) == {robot} && Having(s.roles, Service) == {service}
    ensures Inv(s, robot) && CanStep(s)
  {
    OnlyOne(s, Service, service);
  }

  lemma RobotIs(s: State, robot: Id)
    requires Core(s, robot)
    ensures robot in s.roles && s.roles[robot] == Robot && FirstWith(s.machines, s.roles, Robot) == Some(robot)
    ensures forall m :: m in s.roles && m != robot ==> s.roles[m] != Robot
  {
    OnlyOne(s, Robot, robot);
    assert robot in Having(s.roles, Robot);
    forall m | m in s.roles && s.roles[m] == Robot
      ensures m == robot
    {
      assert m in Having(s.roles, Robot);
    }
  }

  /** A switch moves the service from the current machine to `m` and touches nobody else. */
  lemma SwitchEffect(s: State, robot: Id, m: Id, now: real)
    requires Core(s, robot) && m in s.roles && m != robot
    ensures var t, c := s.SwitchTo(m, now), s.Current().value;
            && Core(t, robot)
            && t.roles == s.roles[c := Standby][m := Service]
            && (Having(s.roles, Service) == {c} ==> Having(t.roles, Service) == {m} && t.Current() == Some(m))
  {
    hide NoDuplicates, Elements, FirstWith, Having;
    RobotIs(s, robot);
    var t, c := s.SwitchTo(m, now), s.Current().value;
    if m != c {
      assert t.roles == s.roles[c := Standby][m := Service];
      assert t.roles.Keys == s.roles.Keys && t.record.Keys == s.record.Keys;
      RolesAfterSwitch(s.roles, robot, c, m);
      SomeoneHas(t.machines, t.roles, Service, m);
      if Having(s.roles, Service) == {c} {
        OnlyOne(t, Service, m);
      }
    } else {
      assert s.roles[c := Standby][m := Service] == s.roles;
    }
  }

  lemma RolesAfterSwitch(roles: Roles, robot: Id, c: Id, m: Id)
    requires Having(roles, Robot) == {robot} && c in roles && m in roles && c != m && robot != c && robot != m
    ensures Having(roles[c := Standby][m := Service], Robot) == {robot}
    ensures Having(roles, Service) == {c} ==> Having(roles[c := Standby][m := Service], Service) == {m}
  {
    assert robot in Having(roles, Robot);
    forall x | x in roles && roles[x] == Robot ensures x == robot {
      assert x in Having(roles, Robot);
    }
    forall x | x in roles && roles[x] == Service && Having(roles, Service) == {c} ensures x == c {
      assert x in Having(roles, Service);
    }
  }

  lemma {:induction false} AssignEachEffect(s: State, from: seq<Id>, r: Role)
    requires forall m :: m in from ==> m in s.roles
    ensures var t := s.AssignEach(from, r);
            && t == s.(roles := t.roles, requests := t.requests)
            && t.roles.Keys == s.roles.Keys
            && forall m :: m in s.roles ==> t.roles[m] == if m in from then r else s.roles[m]
    decreases |from|
  {
    if |from| > 0 {
      AssignEachEffect(s.Assign(from[0], r), from[1..], r);
    }
  }

  lemma {:induction false} StandbyListIs(machines: seq<Id>, roles: Roles)
    ensures forall m :: m in StandbyList(machines, roles) <==> m in machines && m in roles && roles[m] == Standby
  {
    if |machines| > 0 {
      StandbyListIs(machines[1..], roles);
    }
  }

  lemma {:induction false} NonRobotListIs(machines: seq<Id>, roles: Roles)
    ensures forall m :: m in NonRobotList(machines, roles) <==> m in machines && m in roles && roles[m] != Robot
  {
    if |machines| > 0 {
      NonRobotListIs(machines[1..], roles);
    }
  }

  lemma EveryoneServes(s: State, robot: Id)
    requires Core(s, robot)
    ensures var t := s.AssignEach(StandbyList(s.machines, s.roles), Service);
            && Core(t, robot) && t.roles.Keys == s.roles.Keys
            && forall m :: m in s.roles ==> t.roles[m] == if m == robot then Robot else Service
  {
    RobotIs(s, robot);
    StandbyListIs(s.machines, s.roles);
    AssignEachEffect(s, StandbyList(s.machines, s.roles), Service);
    var t := s.AssignEach(StandbyList(s.machines, s.roles), Service);
    assert Having(t.roles, Robot) == {robot};
    FirstWithIff(t.machines, t.roles, Service);
    assert s.Current().value in t.machines && t.roles[s.Current().value] == Service;
  }

  lemma OnlyServiceEffect(s: State, m: Id)
    requires s.roles.Keys == Elements(s.machines) && m in s.roles
    ensures var t := s.OnlyService(m);
            && t == s.(roles := t.roles, requests := t.requests) && t.roles.Keys == s.roles.Keys
            && forall x :: x in s.roles ==>
                 t.roles[x] == if x == m then Service else if s.roles[x] == Robot then Robot else Standby
  {
    hide FirstWith;
    NonRobotListIs(s.machines, s.roles);
    var others := Without(NonRobotList(s.machines, s.roles), m);
    AssignEachEffect(s, others, Standby);
    assert s.OnlyService(m).roles == s.AssignEach(others, Standby).roles[m := Service];
  }

  lemma OneServes(s: State, robot: Id, m: Id)
    requires Core(s, robot) && m in s.roles && m != robot
    ensures var t := s.OnlyService(m);
            && Core(t, robot) && t == s.(roles := t.roles, requests := t.requests)
            && Having(t.roles, Service) == {m} && t.Current() == Some(m) && t.roles.Keys == s.roles.Keys
  {
    RobotIs(s, robot);
    OnlyServiceEffect(s, m);
    var t := s.OnlyService(m);
    hide State.OnlyService, FirstWith;
    RolesOfOne(t.roles, robot, m);
    OnlyOne(t, Service, m);
  }

  lemma RolesOfOne(roles: Roles, robot: Id, m: Id)
    requires m in roles && robot in roles && robot != m
    requires forall x :: x in roles ==> roles[x] == if x == robot then Robot else if x == m then Service else Standby
    ensures Having(roles, Robot) == {robot} && Having(roles, Service) == {m}
  {
  }

  // ----- One service, and the robot stays the robot -----

  /** The one kind of message that records a profile of the robot: its own during parallel profiling, once enough of
      its earlier ones have been thrown away.  `SchedulerRoles` says when that costs the robot its role. */
  ghost predicate RecordsRobot(s: State, robot: Id, e: Event, now: real) {
    && s.parallel && e.ProfileMessage? && e.p.identity == robot && robot in s.record
    && s.record[robot].Updated(e.p, now).HasRunOutOfSkippedProfiles()
  }

  lemma SwitchKeepsInv(s: State, robot: Id, m: Id, now: real)
    requires Inv(s, robot) && m in s.roles && m != robot
    ensures Inv(s.SwitchTo(m, now), robot)
    ensures s.SwitchTo(m, now).machines == s.machines && s.SwitchTo(m, now).parallel == s.parallel
  {
    var t := s.SwitchTo(m, now);
    hide NoDuplicates, Elements, FirstWith, Having, BestOf, State.Valid;
    SwitchEffect(s, robot, m, now);
    RobotIs(s, robot);
    RobotIs(t, robot);
  }

  lemma DoneKeepsInv(s: State, robot: Id)
    requires Inv(s, robot)
    ensures Inv(s.(profiling := false), robot)
  {
  }

  lemma MovesOnKeepsInv(s: State, robot: Id, now: real, s': State)
    requires Inv(s, robot) && !s.parallel && MovesOn(s, now, s')
    ensures Inv(s', robot) && !s'.parallel && s'.machines == s.machines
  {
    RobotIs(s, robot);
    UnprofiledIs(s, robot);
    hide NoDuplicates, FirstWith, Having, BestOf, State.SwitchTo, State.Unprofiled, Core;
    var others := s.Unprofiled() - {s.Current().value};
    if s.Unprofiled() == {} {
      DoneKeepsInv(s, robot);
      var done := s.(profiling := false);
      var best := done.Best(None);
      if best.Some? && |best.value| > 0 {
        SwitchKeepsInv(done, robot, best.value, now);
      }
    } else if others != {} {
      var m :| m in others && s' == s.SwitchTo(m, now);
      SwitchKeepsInv(s, robot, m, now);
    }
  }

  lemma UnprofiledIs(s: State, robot: Id)
    requires Core(s, robot)
    ensures s.Unprofiled() == NonRobots(s.roles) - s.profile.Keys - Elements(s.disconnected)
  {
    RobotIs(s, robot);
  }

  lemma SwitchIfAnyKeepsInv(s: State, robot: Id, exclude: Option<Id>, now: real)
    requires Inv(s, robot)
    ensures Inv(s.SwitchIfAny(s.Best(exclude), now), robot)
    ensures s.SwitchIfAny(s.Best(exclude), now).machines == s.machines
  {
    var best := s.Best(exclude);
    if best.Some? {
      SwitchKeepsInv(s, robot, best.value, now);
    }
  }

  lemma RemoveKeepsInv(s: State, robot: Id, m: Id)
    requires Inv(s, robot)
    ensures Inv(s.Remove(m), robot)
  {
    assert s.Remove(m).profile.Keys == Elements(s.Remove(m).recorded);
  }

  lemma PutKeepsInv(s: State, robot: Id, m: Id, p: Profile, records: map<Id, Record>)
    requires Inv(s, robot) && m in s.roles && m != robot && records.Keys == s.record.Keys
    ensures Inv(s.(record := records), robot) && Inv(s.(record := records).Put(m, p), robot)
  {
    var t := s.(record := records);
    var u := t.Put(m, p);
    assert u.profile.Keys == Elements(u.recorded);
  }

  lemma JudgedKeepsInv(s: State, robot: Id, p: Profile, now: real)
    requires Inv(s, robot)
    ensures var t, current := Judged(s, p, now), s.Current().value;
            && Inv(t, robot) && t.machines == s.machines && Inv(t.Put(current, p), robot)
            && t.parallel == s.parallel && t.Put(current, p).parallel == s.parallel
  {
    RobotIs(s, robot);
    hide Inv, FirstWith, Having, Elements, CheckedRecord;
    PutKeepsInv(s, robot, s.Current().value, p, Judged(s, p, now).record);
  }

  lemma DisconnectKeepsInv(s: State, robot: Id)
    requires Inv(s, robot)
    ensures Inv(s.(disconnected := s.disconnected + [s.Current().value]), robot)
  {
  }

  lemma TimeoutKeepsInv(s: State, robot: Id, now: real, s': State)
    requires Inv(s, robot) && CanStep(s) && !s.parallel && TimeoutStep(s, now, s')
    ensures Inv(s', robot) && s'.machines == s.machines
  {
    var current := s.Current().value;
    var u := s.(disconnected := s.disconnected + [current]);
    RemoveKeepsInv(s, robot, current);
    DisconnectKeepsInv(s, robot);
    assert CanStep(u) && !u.parallel;
    hide Inv, CanStep, MovesOn, State.SwitchIfAny, State.Current, BestOf, Without;
    if s.profiling {
      MovesOnKeepsInv(u, robot, now, s');
    } else {
      SwitchIfAnyKeepsInv(s.Remove(current), robot, None, now);
    }
  }

  lemma {:induction false} SerialMessageKeepsInv(s: State, robot: Id, p: Profile, now: real, s': State)
    requires Inv(s, robot) && !s.parallel && SerialMessage(s, p, now, s')
    ensures Inv(s', robot) && s'.machines == s.machines
  {
    var current := s.Current().value;
    var t := Judged(s, p, now);
    JudgedKeepsInv(s, robot, p, now);
    PutKeepsCanStep(t, current, p);
    hide Inv, CanStep, MovesOn, TimeoutStep, State.SwitchIfAny, BestOf, FirstWith;
    hide Judged, CheckedRecord, TimesOut, WithinBound, Record.HasRunOutOfSkippedProfiles;
    if TimesOut(s, p, now) {
      TimeoutKeepsInv(t, robot, now, s');
    } else if p.identity == current {
      if s.profiling && CheckedRecord(s, p, now).HasRunOutOfSkippedProfiles() {
        MovesOnKeepsInv(t.Put(current, p), robot, now, s');
      } else if !s.profiling && !WithinBound(s.bounds, p) && s.automatic {
        SwitchIfAnyKeepsInv(t, robot, Some(current), now);
      }
    }
  }

  lemma {:induction false} ParallelMessageKeepsInv(s: State, robot: Id, p: Profile, now: real, s': State)
    requires Inv(s, robot) && s.parallel && ParallelMessage(s, p, now, s')
    requires !RecordsRobot(s, robot, ProfileMessage(p), now)
    ensures Inv(s', robot) && s'.machines == s.machines
  {
    if p.identity in s.record {
      RobotIs(s, robot);
      var r := s.record[p.identity].Updated(p, now);
      var records := s.record[p.identity := r];
      var t := s.(record := records);
      if p.identity == robot {
      } else {
        PutKeepsInv(s, robot, p.identity, p, records);
        var u := t.Put(p.identity, p);
        var v := u.(ready := true);
      }
    }
  }

  /** The state in which serial profiling starts. */
  function Begun(s: State): State {
    s.(profiling := true, recorded := [], profile := map[], disconnected := [])
  }

  /** Whatever was recorded before is forgotten, the robot's own profile too. */
  lemma BegunHasInv(s: State, robot: Id)
    requires CanStep(s) && !s.parallel
    requires Having(s.roles, Robot) == {robot} && Having(s.roles, Service) == {s.Current().value}
    ensures Inv(Begun(s), robot)
  {
    assert Elements<Id>([]) == {};
  }

  lemma ParallelRequestKeepsInv(s: State, robot: Id, now: real, s': State)
    requires Inv(s, robot) && !s.profiling && !s.parallel && Next(s, ParallelRequest, now, s')
    ensures Inv(s', robot) && s'.machines == s.machines
  {
    RobotIs(s, robot);
    assert Elements<Id>([]) == {};
    var t := s.OpenedAt(now);
    EveryoneServes(t, robot);
    StandbyListIs(t.machines, t.roles);
    AssignEachEffect(t, StandbyList(t.machines, t.roles), Service);
  }

  lemma RequestKeepsInv(s: State, robot: Id, e: Event, now: real, s': State)
    requires Inv(s, robot) && Next(s, e, now, s') && !e.ProfileMessage?
    ensures Inv(s', robot) && s'.machines == s.machines
  {
    RobotIs(s, robot);
    match e
    case ProfilingRequest =>
      if !s.profiling && !s.parallel {
        BegunHasInv(s, robot);
        MovesOnKeepsInv(Begun(s), robot, now, s');
      }
    case ParallelRequest =>
      if !s.profiling && !s.parallel {
        ParallelRequestKeepsInv(s, robot, now, s');
      }
    case GetBest =>
      SwitchIfAnyKeepsInv(s, robot, None, now);
    case ParallelBest =>
      if s.ready && s.parallel {
        var t := s.(parallel := false);
        var m := if t.Best(None).Some? then t.Best(None).value else s.active.value;
        OneServes(t, robot, m);
      }
  }

  /** One callback keeps the invariant, by which the robot has no profile, exactly when it does not record one. */
  lemma StepKeepsInv(s: State, robot: Id, e: Event, now: real, s': State)
    requires Inv(s, robot) && Next(s, e, now, s')
    ensures Inv(s', robot) <==> !RecordsRobot(s, robot, e, now)
    ensures s'.machines == s.machines
  {
    if RecordsRobot(s, robot, e, now) {
      assert robot in s'.profile;
    } else if !e.ProfileMessage? {
      RequestKeepsInv(s, robot, e, now, s');
    } else if s.parallel {
      ParallelMessageKeepsInv(s, robot, e.p, now, s');
    } else {
      SerialMessageKeepsInv(s, robot, e.p, now, s');
    }
  }

  // ----- Callbacks never strand the scheduler -----

  lemma BegunCanStep(s: State)
    requires CanStep(s)
    ensures CanStep(Begun(s))
  {
    assert Elements<Id>([]) == {};
    hide FirstWith;
  }

  lemma OtherListsCanStep(s: State, profiling: bool, disconnected: seq<Id>)
    requires CanStep(s)
    ensures CanStep(s.(profiling := profiling, disconnected := disconnected))
  {
    hide FirstWith, Elements;
  }

  lemma SwitchCanStep(s: State, m: Id, now: real)
    requires CanStep(s) && m in s.roles
    ensures CanStep(s.SwitchTo(m, now))
  {
    var t := s.SwitchTo(m, now);
    hide FirstWith, Elements, Record.WasReset;
    if t != s {
      assert t.roles.Keys == s.roles.Keys && t.record.Keys == s.record.Keys;
      assert m in Elements(t.machines) && t.roles[m] == Service;
      SomeoneHas(t.machines, t.roles, Service, m);
    }
  }

  lemma SwitchIfAnyCanStep(s: State, exclude: Option<Id>, now: real)
    requires CanStep(s)
    ensures CanStep(s.SwitchIfAny(s.Best(exclude), now))
  {
    var best := s.Best(exclude);
    assert best.Some? ==> best.value in s.roles;
    hide CanStep, State.SwitchTo, BestOf;
    if best.Some? {
      SwitchCanStep(s, best.value, now);
    }
  }

  lemma MovesOnCanStep(s: State, now: real, s': State)
    requires CanStep(s) && MovesOn(s, now, s')
    ensures CanStep(s')
  {
    var others := s.Unprofiled() - {s.Current().value};
    var done := s.(profiling := false);
    assert CanStep(done) && (forall m :: m in others ==> m in s.roles);
    assert done.Best(None).Some? ==> done.Best(None).value in done.roles;
    hide CanStep, State.SwitchTo, BestOf, State.Unprofiled;
    if s.Unprofiled() == {} {
      if s' != done {
        SwitchCanStep(done, done.Best(None).value, now);
      }
    } else if others != {} {
      var m :| m in others && s' == s.SwitchTo(m, now);
      SwitchCanStep(s, m, now);
    }
  }

  lemma TimeoutCanStep(s: State, now: real, s': State)
    requires CanStep(s) && TimeoutStep(s, now, s')
    ensures CanStep(s')
  {
    var current := s.Current().value;
    RemoveKeepsCanStep(s, current);
    assert CanStep(s.(disconnected := s.disconnected + [current]));
    hide CanStep, State.Remove, State.SwitchIfAny, BestOf, MovesOn;
    if s.profiling {
      MovesOnCanStep(s.(disconnected := s.disconnected + [current]), now, s');
    } else {
      SwitchIfAnyCanStep(s.Remove(current), None, now);
    }
  }

  lemma SerialCanStep(s: State, p: Profile, now: real, s': State)
    requires CanStep(s) && SerialMessage(s, p, now, s')
    ensures CanStep(s')
  {
    var current := s.Current().value;
    var t := Judged(s, p, now);
    PutKeepsCanStep(t, current, p);
    hide CanStep, State.Put, State.SwitchIfAny, BestOf, MovesOn, TimeoutStep;
    hide Judged, CheckedRecord, TimesOut, WithinBound;
    if TimesOut(s, p, now) {
      TimeoutCanStep(t, now, s');
    } else if p.identity == current {
      if s.profiling && CheckedRecord(s, p, now).HasRunOutOfSkippedProfiles() {
        MovesOnCanStep(t.Put(current, p), now, s');
      } else if s' != t {
        SwitchIfAnyCanStep(t, Some(current), now);
      }
    }
  }

  lemma ParallelCanStep(s: State, p: Profile, now: real, s': State)
    requires CanStep(s) && ParallelMessage(s, p, now, s')
    ensures CanStep(s')
  {
    hide NonRobotList, FirstWith, Record.Updated, Record.HasRunOutOfSkippedProfiles, Elements, State.Put;
    if p.identity in s.record {
      var t := s.(record := s.record[p.identity := s.record[p.identity].Updated(p, now)]);
      assert t.record.Keys == s.record.Keys;
      assert CanStep(t);
      PutKeepsCanStep(t, p.identity, p);
      var u := t.Put(p.identity, p);
      assert CanStep(u.(ready := true));
    }
  }

  lemma AllServeCanStep(s: State)
    requires CanStep(s)
    ensures CanStep(s.AssignEach(StandbyList(s.machines, s.roles), Service))
  {
    var from, current := StandbyList(s.machines, s.roles), s.Current().value;
    StandbyListIs(s.machines, s.roles);
    AssignEachEffect(s, from, Service);
    var t := s.AssignEach(from, Service);
    hide StandbyList, State.AssignEach, FirstWith;
    assert current in Elements(t.machines) && t.roles[current] == Service;
    SomeoneHas(t.machines, t.roles, Service, current);
  }

  lemma OnlyServiceCanStep(s: State, m: Id)
    requires CanStep(s) && m in s.roles
    ensures CanStep(s.OnlyService(m))
  {
    OnlyServiceEffect(s, m);
    var t := s.OnlyService(m);
    hide State.OnlyService, FirstWith;
    assert m in Elements(t.machines) && t.roles[m] == Service;
    SomeoneHas(t.machines, t.roles, Service, m);
  }

  /** Every callback leaves a state in which every callback can be handled: there is always a service, and during
      parallel profiling a machine to fall back to. */
  lemma StepKeepsCanStep(s: State, e: Event, now: real, s': State)
    requires CanStep(s) && Next(s, e, now, s')
    ensures CanStep(s')
  {
    match e
    case ProfileMessage(p) =>
      if s.parallel {
        ParallelCanStep(s, p, now, s');
      } else {
        SerialCanStep(s, p, now, s');
      }
    case ProfilingRequest =>
      if !s.profiling && !s.parallel {
        assert Elements<Id>([]) == {};
        MovesOnCanStep(Begun(s), now, s');
      }
    case ParallelRequest =>
      if !s.profiling && !s.parallel {
        assert Elements<Id>([]) == {};
        AllServeCanStep(s.OpenedAt(now));
      }
    case GetBest => SwitchIfAnyCanStep(s, None, now);
    case ParallelBest =>
      if s.ready && s.parallel {
        var t := s.(parallel := false);
        OnlyServiceCanStep(t, if t.Best(None).Some? then t.Best(None).value else s.active.value);
      }
  }

  /** No callback of the run records a profile of the robot during parallel profiling. */
  ghost predicate RobotUnrecorded(t: Trace, robot: Id) {
    t.Then? ==> RobotUnrecorded(t.before, robot) && !RecordsRobot(t.before.s, robot, t.call.e, t.call.now)
  }

  lemma {:induction false} RunKeepsInv(t: Trace, robot: Id)
    requires Run(t) && Inv(t.First(), robot) && RobotUnrecorded(t, robot)
    ensures Inv(t.s, robot)
  {
    if t.Then? {
      hide Inv, CanStep, Next, RecordsRobot;
      RunKeepsInv(t.before, robot);
      StepKeepsInv(t.before.s, robot, t.call.e, t.call.now, t.s);
    }
  }

  // ----- Serial profiling -----

  /** Serial profiling is on, the service is being profiled, and nobody is counted twice. */
  ghost predicate Profiling(s: State, robot: Id) {
    && Inv(s, robot) && s.profiling
    && s.Current().value in s.Unprofiled()
    && CountedOnce(s)
  }

  ghost predicate CountedOnce(s: State) {
    && NoDuplicates(s.disconnected)
    && Elements(s.disconnected) !! s.profile.Keys
    && Elements(s.disconnected) <= NonRobots(s.roles)
  }

  /** The end of profiling: everyone but the robot is recorded or disconnected, and never both. */
  ghost predicate Profiled(s: State) {
    && CountedOnce(s)
    && s.profile.Keys + Elements(s.disconnected) == NonRobots(s.roles)
  }

  /** The service is the best recorded machine, if there is one (a machine named "" is not switched to);
      otherwise it is the one it was. */
  ghost predicate BestServes(s: State, previous: Option<Id>) {
    var best := s.Best(None);
    s.Current() == if best.Some? && |best.value| > 0 then best else previous
  }

  lemma NonRobotsAfterSwitch(roles: Roles, c: Id, m: Id)
    requires c in roles && m in roles && roles[c] != Robot && roles[m] != Robot
    ensures NonRobots(roles[c := Standby][m := Service]) == NonRobots(roles)
  {
  }

  lemma SwitchKeepsCounts(s: State, robot: Id, m: Id, now: real)
    requires Core(s, robot) && m in s.roles && m != robot
    ensures var t := s.SwitchTo(m, now);
            && NonRobots(t.roles) == NonRobots(s.roles) && t.Unprofiled() == s.Unprofiled()
            && t.recorded == s.recorded && t.profile == s.profile && t.disconnected == s.disconnected
            && t.profiling == s.profiling && t.parallel == s.parallel && t.bounds == s.bounds
  {
    SwitchEffect(s, robot, m, now);
    RobotIs(s, robot);
    hide NoDuplicates, Elements, FirstWith, Having, NonRobots, State.Unprofiled, State.Valid;
    NonRobotsAfterSwitch(s.roles, s.Current().value, m);
    UnprofiledIs(s, robot);
    UnprofiledIs(s.SwitchTo(m, now), robot);
  }

  /** Moving on keeps profiling going while someone is left, and otherwise ends it with the best machine serving. */
  lemma MovesOnProfiling(s: State, robot: Id, now: real, s': State)
    requires Inv(s, robot) && s.profiling && CountedOnce(s) && MovesOn(s, now, s')
    ensures s'.Unprofiled() == s.Unprofiled()
    ensures if s.Unprofiled() == {} then !s'.profiling && Profiled(s') && BestServes(s', s.Current())
            else Profiling(s', robot)
  {
    MovesOnKeepsInv(s, robot, now, s');
    UnprofiledIs(s, robot);
    RobotIs(s, robot);
    var others := s.Unprofiled() - {s.Current().value};
    if s.Unprofiled() == {} {
      FinishedProfiling(s, robot, now);
    } else {
      hide NoDuplicates, Elements, FirstWith, Having, BestOf, State.SwitchTo, State.Unprofiled, State.Valid;
      if others != {} {
        var m :| m in others && s' == s.SwitchTo(m, now);
        SwitchEffect(s, robot, m, now);
        SwitchKeepsCounts(s, robot, m, now);
      } else {
        var m :| m in s.Unprofiled();
        assert m == s.Current().value || m in others;
      }
    }
  }

  lemma FinishedProfiling(s: State, robot: Id, now: real)
    requires Inv(s, robot) && s.profiling && CountedOnce(s) && s.Unprofiled() == {}
    ensures var t := Finished(s, now);
            t.Unprofiled() == {} && !t.profiling && Profiled(t) && BestServes(t, s.Current())
  {
    var done := s.(profiling := false);
    UnprofiledIs(s, robot);
    UnprofiledIs(done, robot);
    RobotIs(s, robot);
    hide NoDuplicates, FirstWith, Having, BestOf, State.SwitchTo, State.Unprofiled, State.Valid;
    AllCounted(s);
    var best := done.Best(None);
    if best.Some? && |best.value| > 0 {
      SwitchEffect(done, robot, best.value, now);
      SwitchKeepsCounts(done, robot, best.value, now);
    }
  }

  lemma AllCounted(s: State)
    requires CountedOnce(s) && s.profile.Keys <= NonRobots(s.roles)
    requires NonRobots(s.roles) - s.profile.Keys - Elements(s.disconnected) == {}
    ensures Profiled(s)
  {
    forall m | m in NonRobots(s.roles)
      ensures m in s.profile.Keys + Elements(s.disconnected)
    {
      assert m in s.profile.Keys || m in Elements(s.disconnected)
             || m in NonRobots(s.roles) - s.profile.Keys - Elements(s.disconnected);
    }
  }

  /** A profiling request outside profiling starts it, with every machine but the robot still to profile, also when
      an earlier parallel profiling has recorded the robot. */
  lemma ProfilingStarts(s: State, robot: Id, now: real, s': State)
    requires CanStep(s) && !s.profiling && !s.parallel && Next(s, ProfilingRequest, now, s')
    requires Having(s.roles, Robot) == {robot} && Having(s.roles, Service) == {s.Current().value}
    ensures Profiling(s', robot) && s'.Unprofiled() == NonRobots(s.roles)
  {
    BegunHasInv(s, robot);
    UnprofiledIs(Begun(s), robot);
    assert Elements<Id>([]) == {};
    assert s.Current().value in NonRobots(s.roles);
    MovesOnProfiling(Begun(s), robot, now, s');
  }

  /** The current machine is timed out, or its profile is accepted. */
  ghost predicate Consumes(s: State, c: Call)
    requires CanStep(s)
  {
    && c.e.ProfileMessage?
    && (|| TimesOut(s, c.e.p, c.now)
        || (c.e.p.identity == s.Current().value && CheckedRecord(s, c.e.p, c.now).HasRunOutOfSkippedProfiles()))
  }

  /** The list after the current machine has been recorded, or counted as disconnected. */
  lemma CountOne(s: State, robot: Id, u: State)
    requires Profiling(s, robot) && Core(u, robot) && u.roles == s.roles && u.machines == s.machines
    requires var c := s.Current().value;
             || (u.profile.Keys == s.profile.Keys + {c} && u.disconnected == s.disconnected)
             || (u.profile.Keys == s.profile.Keys && u.disconnected == s.disconnected + [c])
    ensures CountedOnce(u) && u.Unprofiled() == s.Unprofiled() - {s.Current().value}
  {
    var c := s.Current().value;
    UnprofiledIs(s, robot);
    UnprofiledIs(u, robot);
    assert Elements(s.disconnected + [c]) == Elements(s.disconnected) + {c};
    assert c !in Elements(s.disconnected);
    assert u.disconnected == s.disconnected + [c] ==> NoDuplicates(u.disconnected);
    assert c in NonRobots(s.roles);
  }

  /** The state in which the next machine is looked for: the current one is recorded, or counted as disconnected. */
  ghost function CountedIn(s: State, p: Profile, now: real): State
    requires CanStep(s)
  {
    var t, current := Judged(s, p, now), s.Current().value;
    if TimesOut(s, p, now) then t.(disconnected := t.disconnected + [current]) else t.Put(current, p)
  }

  lemma CountedInKeepsInv(s: State, robot: Id, p: Profile, now: real)
    requires Inv(s, robot)
    ensures Inv(CountedIn(s, p, now), robot) && CountedIn(s, p, now).parallel == s.parallel
  {
    JudgedKeepsInv(s, robot, p, now);
    DisconnectKeepsInv(Judged(s, p, now), robot);
    hide Inv, TimesOut, State.Put, FirstWith, CheckedRecord;
  }

  lemma CountedInMovesOn(s: State, c: Call, s': State)
    requires CanStep(s) && s.profiling && !s.parallel && Next(s, c.e, c.now, s') && Consumes(s, c)
    ensures CanStep(CountedIn(s, c.e.p, c.now)) && MovesOn(CountedIn(s, c.e.p, c.now), c.now, s')
  {
    PutKeepsCanStep(Judged(s, c.e.p, c.now), s.Current().value, c.e.p);
    hide MovesOn, TimesOut, CheckedRecord, FirstWith, State.Put;
  }

  lemma JudgedKeepsTheRest(s: State, p: Profile, now: real)
    requires CanStep(s)
    ensures Judged(s, p, now) == s.(record := Judged(s, p, now).record)
  {
    hide CheckedRecord, CanStep, FirstWith;
  }

  lemma PutRecords(s: State, m: Id, p: Profile)
    ensures s.Put(m, p) == s.(recorded := s.Put(m, p).recorded, profile := s.Put(m, p).profile)
    ensures s.Put(m, p).profile.Keys == s.profile.Keys + {m}
  {
  }

  lemma CountedInKeepsRest(s: State, p: Profile, now: real)
    requires CanStep(s)
    ensures var u, c := CountedIn(s, p, now), s.Current().value;
            && u.roles == s.roles && u.machines == s.machines && u.profiling == s.profiling
            && (|| (u.profile.Keys == s.profile.Keys + {c} && u.disconnected == s.disconnected)
                || (u.profile.Keys == s.profile.Keys && u.disconnected == s.disconnected + [c]))
  {
    JudgedKeepsTheRest(s, p, now);
    hide Judged, TimesOut, CheckedRecord, FirstWith, Elements, CanStep;
    PutRecords(Judged(s, p, now), s.Current().value, p);
    hide State.Put;
  }

  lemma ConsumingStep(s: State, robot: Id, c: Call, s': State)
    requires Profiling(s, robot) && Next(s, c.e, c.now, s') && Consumes(s, c)
    ensures s'.Unprofiled() == s.Unprofiled() - {s.Current().value}
    ensures if s'.Unprofiled() == {} then !s'.profiling && Profiled(s') && BestServes(s', s.Current())
            else Profiling(s', robot)
  {
    var u := CountedIn(s, c.e.p, c.now);
    CountedInKeepsInv(s, robot, c.e.p, c.now);
    CountedInMovesOn(s, c, s');
    CountedInKeepsRest(s, c.e.p, c.now);
    assert Core(u, robot) && u.Current() == s.Current() && u.profiling && !u.parallel;
    hide *;
    CountOne(s, robot, u);
    MovesOnProfiling(u, robot, c.now, s');
  }

  lemma JudgedIsProfiling(s: State, robot: Id, p: Profile, now: real)
    requires Profiling(s, robot)
    ensures Profiling(Judged(s, p, now), robot) && Judged(s, p, now).Unprofiled() == s.Unprofiled()
  {
    JudgedKeepsInv(s, robot, p, now);
    hide Inv, CheckedRecord, FirstWith, Elements, NoDuplicates;
  }

  lemma OtherStep(s: State, robot: Id, c: Call, s': State)
    requires Profiling(s, robot) && Next(s, c.e, c.now, s') && !Consumes(s, c) && !c.e.GetBest?
    ensures s'.Unprofiled() == s.Unprofiled() && Profiling(s', robot)
  {
    if c.e.ProfileMessage? {
      JudgedIsProfiling(s, robot, c.e.p, c.now);
    }
    hide TimesOut, CheckedRecord, FirstWith, Elements, NoDuplicates, Judged, CountedOnce, State.Unprofiled, MovesOn;
  }

  /** How many of the calls timed the current machine out or accepted its profile. */
  ghost function Consumed(t: Trace): nat {
    match t
    case Begin(_) => 0
    case Then(before, call, _) => Consumed(before) + if CanStep(before.s) && Consumes(before.s, call) then 1 else 0
  }

  /** Profiling is on before every call, and none of the calls is get-best. */
  ghost predicate Undisturbed(t: Trace) {
    t.Then? ==> Undisturbed(t.before) && t.before.s.profiling && !t.call.e.GetBest?
  }

  /** Serial profiling terminates and is complete.  As long as it is on and get-best is not called, every
      timeout and every accepted profile takes exactly one machine off the list; profiling is over exactly
      when as many of them have happened as there were machines; and then the machines other than the robot
      are split into the recorded and the disconnected ones, and the best recorded one serves. */
  lemma {:induction false} SerialProfiling(t: Trace, robot: Id)
    requires Run(t) && Profiling(t.First(), robot) && Undisturbed(t)
    ensures |t.s.Unprofiled()| + Consumed(t) == |t.First().Unprofiled()|
    ensures t.s.profiling <==> Consumed(t) < |t.First().Unprofiled()|
    ensures if t.s.profiling then Profiling(t.s, robot)
            else t.Then? && Profiled(t.s) && BestServes(t.s, t.before.s.Current())
  {
    hide Consumes, CanStep, Next, Inv, Profiled, BestServes, CountedOnce, State.Unprofiled, State.Current;
    if t.Then? {
      SerialProfiling(t.before, robot);
      hide Profiling;
      ProfilingStep(t.before.s, robot, t.call, t.s);
    } else {
      assert t.s.Unprofiled() != {};
    }
  }

  lemma OneLess<T>(s: set<T>, x: T)
    ensures |s - {x}| == |s| - if x in s then 1 else 0
  {
    if x in s {
      assert s == (s - {x}) + {x};
    } else {
      assert s - {x} == s;
    }
  }

  lemma {:induction false} ProfilingStep(s: State, robot: Id, c: Call, s': State)
    requires Profiling(s, robot) && Next(s, c.e, c.now, s') && !c.e.GetBest?
    ensures |s'.Unprofiled()| == |s.Unprofiled()| - if Consumes(s, c) then 1 else 0
    ensures s'.profiling <==> |s'.Unprofiled()| > 0
    ensures if s'.profiling then Profiling(s', robot) else Profiled(s') && BestServes(s', s.Current())
  {
    var current := s.Current().value;
    assert current in s.Unprofiled();
    OneLess(s.Unprofiled(), current);
    assert Profiling(s', robot) ==> s'.Unprofiled() != {} && s'.profiling;
    hide *;
    if Consumes(s, c) {
      ConsumingStep(s, robot, c, s');
    } else {
      OtherStep(s, robot, c, s');
    }
    assert |s'.Unprofiled()| == 0 <==> s'.Unprofiled() == {};
  }

  // ----- The node's copy of the assignment -----

  /** What a list of assignment requests makes of an assignment. */
  function Applied(roles: Roles, requests: seq<(Id, Role)>): Roles
    decreases |requests|
  {
    if |requests| == 0 then roles
    else Applied(roles, requests[..|requests| - 1])[requests[|requests| - 1].0 := requests[|requests| - 1].1]
  }

  /** The requests sent on the way from `s` to `t` make `t`'s assignment of `s`'s. */
  ghost predicate Mirrored(s: State, t: State) {
    && s.requests <= t.requests
    && Applied(s.roles, t.requests[|s.requests|..]) == t.roles
  }

  lemma {:induction false} AppliedTwice(roles: Roles, a: seq<(Id, Role)>, b: seq<(Id, Role)>)
    ensures Applied(roles, a + b) == Applied(Applied(roles, a), b)
    decreases |b|
  {
    if |b| == 0 {
      assert a + b == a;
    } else {
      assert (a + b)[..|a + b| - 1] == a + b[..|b| - 1];
      AppliedTwice(roles, a, b[..|b| - 1]);
    }
  }

  lemma MirroredTwice(s: State, t: State, u: State)
    requires Mirrored(s, t) && Mirrored(t, u)
    ensures Mirrored(s, u)
  {
    AppliedTwice(s.roles, t.requests[|s.requests|..], u.requests[|t.requests|..]);
    assert u.requests[|s.requests|..] == t.requests[|s.requests|..] + u.requests[|t.requests|..];
  }

  lemma AssignMirrored(s: State, m: Id, r: Role)
    ensures Mirrored(s, s.Assign(m, r))
  {
    assert s.Assign(m, r).requests[|s.requests|..] == [(m, r)];
    assert [(m, r)][..0] == [];
  }

  lemma {:induction false} AssignEachMirrored(s: State, from: seq<Id>, r: Role)
    ensures Mirrored(s, s.AssignEach(from, r))
    decreases |from|
  {
    if |from| > 0 {
      AssignMirrored(s, from[0], r);
      AssignEachMirrored(s.Assign(from[0], r), from[1..], r);
      MirroredTwice(s, s.Assign(from[0], r), s.AssignEach(from, r));
    } else {
      SameMirrored(s, s);
    }
  }

  lemma SameMirrored(s: State, t: State)
    requires t.roles == s.roles && t.requests == s.requests
    ensures Mirrored(s, t)
  {
    assert t.requests[|s.requests|..] == [];
  }

  lemma SwitchMirrored(s: State, t: State, m: Id, now: real)
    requires t.roles == s.roles && t.requests == s.requests
    requires m in t.record && t.Current().Some? && t.Current().value in t.record
    ensures Mirrored(s, t.SwitchTo(m, now))
  {
    SameMirrored(s, t);
    var previous := t.Current().value;
    if m != previous {
      var u := t.(record := t.record[m := t.record[m].WasReset(now)][previous := t.record[previous].WasReset(now)]);
      SameMirrored(s, u);
      AssignMirrored(u, previous, Standby);
      MirroredTwice(s, u, u.Assign(previous, Standby));
      AssignMirrored(u.Assign(previous, Standby), m, Service);
      MirroredTwice(s, u.Assign(previous, Standby), u.Assign(previous, Standby).Assign(m, Service));
    }
  }

  lemma OnlyServiceMirrored(s: State, m: Id)
    ensures Mirrored(s, s.OnlyService(m))
  {
    var u := s.AssignEach(Without(NonRobotList(s.machines, s.roles), m), Standby);
    AssignEachMirrored(s, Without(NonRobotList(s.machines, s.roles), m), Standby);
    AssignMirrored(u, m, Service);
    MirroredTwice(s, u, s.OnlyService(m));
  }

  lemma {:induction false} MovesOnMirrored(s: State, t: State, now: real, s': State)
    requires t.roles == s.roles && t.requests == s.requests && CanStep(t) && MovesOn(t, now, s')
    ensures Mirrored(s, s')
  {
    hide Mirrored, State.SwitchTo, BestOf;
    SameMirrored(s, t);
    var others := t.Unprofiled() - {t.Current().value};
    if t.Unprofiled() == {} {
      var done := t.(profiling := false);
      var best := done.Best(None);
      SameMirrored(s, done);
      if best.Some? && |best.value| > 0 {
        SwitchMirrored(s, done, best.value, now);
      }
    } else if others != {} {
      var m :| m in others && s' == t.SwitchTo(m, now);
      SwitchMirrored(s, t, m, now);
    }
  }

  lemma SwitchIfAnyMirrored(s: State, t: State, exclude: Option<Id>, now: real)
    requires t.roles == s.roles && t.requests == s.requests && CanStep(t)
    ensures Mirrored(s, t.SwitchIfAny(t.Best(exclude), now))
  {
    hide Mirrored, State.SwitchTo, BestOf;
    SameMirrored(s, t);
    if t.Best(exclude).Some? {
      SwitchMirrored(s, t, t.Best(exclude).value, now);
    }
  }

  lemma {:induction false} TimeoutMirrored(s: State, t: State, now: real, s': State)
    requires t.roles == s.roles && t.requests == s.requests && CanStep(t) && TimeoutStep(t, now, s')
    ensures Mirrored(s, s')
  {
    hide Mirrored, BestOf, State.SwitchTo, State.SwitchIfAny, MovesOn;
    var current := t.Current().value;
    if t.profiling {
      MovesOnMirrored(s, t.(disconnected := t.disconnected + [current]), now, s');
    } else {
      SwitchIfAnyMirrored(s, t.Remove(current), None, now);
    }
  }

  lemma SerialMirrored(s: State, p: Profile, now: real, s': State)
    requires CanStep(s) && SerialMessage(s, p, now, s')
    ensures Mirrored(s, s')
  {
    hide Mirrored, BestOf, State.SwitchTo, State.SwitchIfAny, WithinBound, MovesOn, TimeoutStep, FirstWith;
    var current := s.Current().value;
    var r := CheckedRecord(s, p, now);
    var t := s.(record := s.record[current := r]);
    var u := t.Put(current, p);
    SameMirrored(s, s);
    SameMirrored(s, t);
    if r.TimedOut(now) {
      TimeoutMirrored(s, t, now, s');
    } else if p.identity == current && s.profiling && r.HasRunOutOfSkippedProfiles() {
      MovesOnMirrored(s, u, now, s');
    } else {
      SwitchIfAnyMirrored(s, t, Some(current), now);
    }
  }

  lemma ParallelMirrored(s: State, p: Profile, now: real, s': State)
    requires CanStep(s) && ParallelMessage(s, p, now, s')
    ensures Mirrored(s, s')
  {
    hide NonRobotList, FirstWith, Elements, Mirrored;
    SameMirrored(s, s');
  }

  lemma StepMirrored(s: State, c: Call, s': State)
    requires CanStep(s) && Next(s, c.e, c.now, s')
    ensures Mirrored(s, s')
  {
    hide Mirrored, BestOf, State.SwitchTo, State.SwitchIfAny, MovesOn, State.OnlyService;
    SameMirrored(s, s);
    match c.e
    case ProfileMessage(p) =>
      if s.parallel {
        ParallelMirrored(s, p, c.now, s');
      } else {
        SerialMirrored(s, p, c.now, s');
      }
    case GetBest => SwitchIfAnyMirrored(s, s, None, c.now);
    case ProfilingRequest =>
      if !s.profiling && !s.parallel {
        assert Elements<Id>([]) == {};
        MovesOnMirrored(s, Begun(s), c.now, s');
      }
    case ParallelRequest =>
      var t := s.OpenedAt(c.now);
      SameMirrored(s, t);
      AssignEachMirrored(t, StandbyList(s.machines, s.roles), Service);
      MirroredTwice(s, t, t.AssignEach(StandbyList(s.machines, s.roles), Service));
    case ParallelBest =>
      if s.ready && s.parallel {
        var t := s.(parallel := false);
        var m := if t.Best(None).Some? then t.Best(None).value else s.active.value;
        SameMirrored(s, t);
        OnlyServiceMirrored(t, m);
        MirroredTwice(s, t, t.OnlyService(m));
      }
  }

  /** Over every run, the assignment requests sent to the node, applied in order, give the scheduler's own
      assignment: the two copies never drift apart. */
  lemma {:induction false} RequestsMirrorAssignment(t: Trace)
    requires Run(t)
    ensures t.First().requests <= t.s.requests
    ensures Applied(t.First().roles, t.s.requests[|t.First().requests|..]) == t.s.roles
  {
    if t.Begin? {
      SameMirrored(t.s, t.s);
    } else {
      hide CanStep, Next;
      RequestsMirrorAssignment(t.before);
      StepMirrored(t.before.s, t.call, t.s);
      MirroredTwice(t.First(), t.before.s, t.s);
    }
  }
}
