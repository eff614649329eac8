/**
  sgc_policy_scheduler.py, over whole runs: who serves, and when the robot keeps its role.
 */
module SchedulerRoles {
  import opened Wrappers
  import opened SchedulerState
  import opened SchedulerRuns

  // ----- One service -----

  /** Callbacks can be handled, and outside parallel profiling the service is the only one. */
  ghost predicate Steady(s: State) {
    CanStep(s) && (!s.parallel ==> Single(s))
  }

  ghost predicate Single(s: State)
    requires s.Current().Some?
  {
    Having(s.roles, Service) == {s.Current().value}
  }

  lemma SingleAmong(roles: Roles, c: Id, m: Id)
    requires Having(roles, Service) == {c} && c in roles && m in roles && c != m
    ensures Having(roles[c := Standby][m := Service], Service) == {m}
  {
    forall x | x in roles && roles[x] == Service ensures x == c {
      assert x in Having(roles, Service);
    }
  }

  /** A switch leaves one service where there was one. */
  lemma SwitchStaysSingle(s: State, m: Id, now: real)
    requires CanStep(s) && Single(s) && m in s.roles
    ensures var t := s.SwitchTo(m, now); CanStep(t) && Single(t) && t.Current() == Some(m)
  {
    var t, c := s.SwitchTo(m, now), s.Current().value;
    SwitchCanStep(s, m, now);
    if m != c {
      assert t.roles == s.roles[c := Standby][m := Service];
      hide FirstWith, Elements, Having, State.SwitchTo;
      SingleAmong(s.roles, c, m);
      OnlyOne(t, Service, m);
    }
  }

  lemma SwitchIfAnyStaysSingle(s: State, exclude: Option<Id>, now: real)
    requires CanStep(s) && Single(s)
    ensures var t := s.SwitchIfAny(s.Best(exclude), now); CanStep(t) && Single(t)
  {
    var best := s.Best(exclude);
    assert best.Some? ==> best.value in s.roles;
    hide CanStep, Single, State.SwitchTo, BestOf;
    if best.Some? {
      SwitchStaysSingle(s, best.value, now);
    }
  }

  lemma MovesOnStaysSingle(s: State, now: real, s': State)
    requires CanStep(s) && Single(s) && MovesOn(s, now, s')
    ensures CanStep(s') && Single(s')
  {
    var others := s.Unprofiled() - {s.Current().value};
    var done := s.(profiling := false);
    assert CanStep(done) && Single(done) && (forall m :: m in others ==> m in s.roles);
    assert done.Best(None).Some? ==> done.Best(None).value in done.roles;
    hide CanStep, Single, State.SwitchTo, BestOf, State.Unprofiled;
    if s.Unprofiled() == {} {
      if s' != done {
        SwitchStaysSingle(done, done.Best(None).value, now);
      }
    } else if others != {} {
      var m :| m in others && s' == s.SwitchTo(m, now);
      SwitchStaysSingle(s, m, now);
    }
  }

  lemma TimeoutStaysSingle(s: State, now: real, s': State)
    requires CanStep(s) && Single(s) && TimeoutStep(s, now, s')
    ensures CanStep(s') && Single(s')
  {
    var current := s.Current().value;
    RemoveKeepsCanStep(s, current);
    var u := s.(disconnected := s.disconnected + [current]);
    assert CanStep(u) && Single(u) && Single(s.Remove(current));
    hide CanStep, Single, State.Remove, State.SwitchIfAny, BestOf, MovesOn;
    if s.profiling {
      MovesOnStaysSingle(u, now, s');
    } else {
      SwitchIfAnyStaysSingle(s.Remove(current), None, now);
    }
  }

  lemma SerialStaysSingle(s: State, p: Profile, now: real, s': State)
    requires CanStep(s) && Single(s) && SerialMessage(s, p, now, s')
    ensures CanStep(s') && Single(s')
  {
    var current := s.Current().value;
    var t := Judged(s, p, now);
    PutKeepsCanStep(t, current, p);
    assert Single(t) && Single(t.Put(current, p));
    hide CanStep, Single, State.Put, State.SwitchIfAny, BestOf, MovesOn, TimeoutStep;
    hide Judged, CheckedRecord, TimesOut, WithinBound;
    if TimesOut(s, p, now) {
      TimeoutStaysSingle(t, now, s');
    } else if p.identity == current {
      if s.profiling && CheckedRecord(s, p, now).HasRunOutOfSkippedProfiles() {
        MovesOnStaysSingle(t.Put(current, p), now, s');
      } else if s' != t {
        SwitchIfAnyStaysSingle(t, Some(current), now);
      }
    }
  }

  lemma ChosenIsSingle(s: State, m: Id)
    requires CanStep(s) && m in s.roles
    ensures var t := s.OnlyService(m); CanStep(t) && Single(t)
  {
    OnlyServiceCanStep(s, m);
    OnlyServiceEffect(s, m);
    var t := s.OnlyService(m);
    hide State.OnlyService, FirstWith;
    assert Having(t.roles, Service) == {m};
    OnlyOne(t, Service, m);
  }

  /** The callbacks that arrive while parallel profiling is on: only the choice of the best ends it. */
  lemma ParallelStaysSteady(s: State, e: Event, now: real, s': State)
    requires Steady(s) && s.parallel && Next(s, e, now, s')
    ensures Steady(s')
  {
    StepKeepsCanStep(s, e, now, s');
    if e.ParallelBest? && s.ready {
      var t := s.(parallel := false);
      ChosenIsSingle(t, if t.Best(None).Some? then t.Best(None).value else s.active.value);
    } else {
      hide State.Valid, FirstWith, Elements, BestOf, NonRobotList, CanStep, Record.Updated;
    }
  }

  lemma SerialStaysSteady(s: State, e: Event, now: real, s': State)
    requires Steady(s) && !s.parallel && Next(s, e, now, s')
    ensures Steady(s')
  {
    StepKeepsCanStep(s, e, now, s');
    match e
    case ProfileMessage(p) => SerialStaysSingle(s, p, now, s');
    case ProfilingRequest =>
      if !s.profiling {
        assert Elements<Id>([]) == {};
        MovesOnStaysSingle(Begun(s), now, s');
      }
    case ParallelRequest =>
      if !s.profiling {
        var t := s.OpenedAt(now);
        StandbyListIs(s.machines, s.roles);
        AssignEachEffect(t, StandbyList(s.machines, s.roles), Service);
      }
    case GetBest => SwitchIfAnyStaysSingle(s, None, now);
    case ParallelBest =>
  }

  lemma StepStaysSteady(s: State, e: Event, now: real, s': State)
    requires Steady(s) && Next(s, e, now, s')
    ensures Steady(s')
  {
    hide *;
    if s.parallel {
      ParallelStaysSteady(s, e, now, s');
    } else {
      SerialStaysSteady(s, e, now, s');
    }
  }

  lemma {:induction false} RunStaysSteady(t: Trace)
    requires Run(t) && Steady(t.First())
    ensures Steady(t.s)
  {
    if t.Then? {
      hide Steady, Next, CanStep;
      RunStaysSteady(t.before);
      StepStaysSteady(t.before.s, t.call.e, t.call.now, t.s);
    }
  }

  /** In every run, whatever is profiled and whenever the callbacks come, exactly one machine is the service while
      parallel profiling is off, and at least one while it is on. */
  lemma {:induction false} OneService(t: Trace)
    requires Run(t) && CanStep(t.First()) && (!t.First().parallel ==> |Having(t.First().roles, Service)| == 1)
    ensures if t.s.parallel then |Having(t.s.roles, Service)| >= 1 else |Having(t.s.roles, Service)| == 1
  {
    if !t.First().parallel {
      OneIsSingle(t.First());
    }
    RunStaysSteady(t);
    hide Run, Trace.First;
    assert t.s.Current().value in Having(t.s.roles, Service);
  }

  lemma OneIsSingle(s: State)
    requires CanStep(s) && |Having(s.roles, Service)| == 1
    ensures Single(s)
  {
    var c := s.Current().value;
    assert c in Having(s.roles, Service);
    forall x | x in Having(s.roles, Service) ensures x == c {
      OneLess(Having(s.roles, Service), c);
      assert Having(s.roles, Service) - {c} == {};
    }
  }

  // ----- The robot's role -----

  /** A search in this state returns `m`. */
  predicate Picks(s: State, exclude: Option<Id>, m: Id) {
    IsChoice(s.bounds, s.recorded, s.profile, exclude, m)
  }

  /** Serial profiling is over in this state, and its last search returns `m`. */
  predicate EndPicks(s: State, m: Id) {
    s.Unprofiled() == {} && |m| > 0 && Picks(s, None, m)
  }

  /** The profile messages outside parallel profiling that take the robot's role away:
      * a timeout, when the robot is the best of the others, or when it ends profiling with the robot the best;
      * an accepted profile that ends profiling with the robot the best;
      * a profile of the service that is not within the limits, when the robot is the best of the others. */
  ghost predicate MessageDisplaces(s: State, robot: Id, p: Profile, now: real)
    requires CanStep(s)
  {
    var current := s.Current().value;
    if TimesOut(s, p, now) then
      if s.profiling then EndPicks(s.(disconnected := s.disconnected + [current]), robot)
      else Picks(s.Remove(current), None, robot)
    else
      && p.identity == current
      && if s.profiling then
           CheckedRecord(s, p, now).HasRunOutOfSkippedProfiles() && EndPicks(s.Put(current, p), robot)
         else
           s.automatic && !WithinBound(s.bounds, p) && Picks(s, Some(current), robot)
  }

  /** The callbacks that take the robot's role away: those messages, and get-best, during parallel profiling or not,
      and the choice after parallel profiling, when the robot is the best recorded machine. */
  ghost predicate Displaces(s: State, robot: Id, e: Event, now: real)
    requires CanStep(s)
  {
    match e
    case GetBest => Picks(s, None, robot)
    case ParallelBest => s.ready && s.parallel && Picks(s, None, robot)
    case ProfileMessage(p) => !s.parallel && MessageDisplaces(s, robot, p, now)
    case _ => false
  }

  /** `robot` is the only robot, or there is none. */
  ghost predicate OnlyRobot(s: State, robot: Id) {
    Having(s.roles, Robot) <= {robot}
  }

  /** The robots left when `robot` is displaced, or not. */
  function RobotsLeft(roles: Roles, robot: Id, displaced: bool): set<Id> {
    if displaced then Having(roles, Robot) - {robot} else Having(roles, Robot)
  }

  lemma RobotsAfterSwitch(roles: Roles, c: Id, m: Id)
    requires c in roles && m in roles && roles[c] == Service && c != m
    ensures Having(roles[c := Standby][m := Service], Robot) == Having(roles, Robot) - {m}
  {
  }

  lemma SwitchRobots(s: State, m: Id, now: real)
    requires CanStep(s) && m in s.roles
    ensures Having(s.SwitchTo(m, now).roles, Robot) == Having(s.roles, Robot) - {m}
  {
    var c := s.Current().value;
    if m != c {
      assert s.SwitchTo(m, now).roles == s.roles[c := Standby][m := Service];
      RobotsAfterSwitch(s.roles, c, m);
    }
  }

  lemma SwitchIfAnyRobots(s: State, robot: Id, exclude: Option<Id>, now: real)
    requires CanStep(s) && OnlyRobot(s, robot)
    ensures Having(s.SwitchIfAny(s.Best(exclude), now).roles, Robot) ==
              RobotsLeft(s.roles, robot, Picks(s, exclude, robot))
  {
    var best := s.Best(exclude);
    assert best.Some? ==> best.value in s.roles;
    BestIffChoice(s.bounds, s.recorded, s.profile, exclude, robot);
    hide CanStep, Having, State.SwitchTo, BestOf, IsChoice;
    if best.Some? {
      SwitchRobots(s, best.value, now);
    }
  }

  lemma UnprofiledIsNoRobot(s: State, robot: Id)
    requires CanStep(s) && OnlyRobot(s, robot)
    ensures forall m :: m in s.Unprofiled() ==> m in s.roles && m !in Having(s.roles, Robot)
  {
    var first := FirstWith(s.machines, s.roles, Robot);
    FirstWithIff(s.machines, s.roles, Robot);
    assert first.Some? ==> first.value in Having(s.roles, Robot);
    forall m | m in s.Unprofiled() ensures m in s.roles && m !in Having(s.roles, Robot) {
      assert m in Elements(s.machines);
    }
  }

  lemma FinishedRobots(s: State, robot: Id, now: real)
    requires CanStep(s) && OnlyRobot(s, robot)
    ensures Having(Finished(s, now).roles, Robot) == RobotsLeft(s.roles, robot, |robot| > 0 && Picks(s, None, robot))
  {
    var done := s.(profiling := false);
    var best := done.Best(None);
    assert CanStep(done) && best == BestOf(s.bounds, s.recorded, s.profile, None);
    assert best.Some? ==> best.value in done.roles;
    BestIffChoice(s.bounds, s.recorded, s.profile, None, robot);
    if best.Some? && |best.value| > 0 {
      SwitchRobots(done, best.value, now);
    }
    hide CanStep, Having, State.SwitchTo, BestOf, IsChoice;
  }

  lemma MovesOnRobots(s: State, robot: Id, now: real, s': State)
    requires CanStep(s) && OnlyRobot(s, robot) && MovesOn(s, now, s')
    ensures Having(s'.roles, Robot) == RobotsLeft(s.roles, robot, EndPicks(s, robot))
  {
    var others := s.Unprofiled() - {s.Current().value};
    UnprofiledIsNoRobot(s, robot);
    hide CanStep, Having, State.SwitchTo, IsChoice, State.Unprofiled, Finished;
    if s.Unprofiled() == {} {
      FinishedRobots(s, robot, now);
    } else if others != {} {
      var m :| m in others && s' == s.SwitchTo(m, now);
      SwitchRobots(s, m, now);
    }
  }

  lemma TimeoutRobots(s: State, robot: Id, now: real, s': State)
    requires CanStep(s) && OnlyRobot(s, robot) && TimeoutStep(s, now, s')
    ensures var current := s.Current().value;
            Having(s'.roles, Robot) ==
              RobotsLeft(s.roles, robot,
                         if s.profiling then EndPicks(s.(disconnected := s.disconnected + [current]), robot)
                         else Picks(s.Remove(current), None, robot))
  {
    var current := s.Current().value;
    RemoveKeepsCanStep(s, current);
    var u := s.(disconnected := s.disconnected + [current]);
    assert CanStep(u) && s.Remove(current).roles == s.roles;
    hide CanStep, Having, State.Remove, State.SwitchIfAny, BestOf, MovesOn, IsChoice, EndPicks, Picks;
    if s.profiling {
      MovesOnRobots(u, robot, now, s');
    } else {
      SwitchIfAnyRobots(s.Remove(current), robot, None, now);
    }
  }

  /** The records do not matter for what is chosen. */
  lemma RecordsDoNotChoose(s: State, t: State, exclude: Option<Id>, m: Id)
    requires t == s.(record := t.record)
    ensures Picks(t, exclude, m) == Picks(s, exclude, m)
    ensures EndPicks(t, m) == EndPicks(s, m)
  {
    hide IsChoice, FirstWith, Elements;
  }

  lemma JudgedPicks(s: State, p: Profile, now: real, exclude: Option<Id>, m: Id)
    requires CanStep(s)
    ensures var t, current := Judged(s, p, now), s.Current().value;
            && Picks(t, exclude, m) == Picks(s, exclude, m)
            && Picks(t.Remove(current), exclude, m) == Picks(s.Remove(current), exclude, m)
            && EndPicks(t.Put(current, p), m) == EndPicks(s.Put(current, p), m)
            && EndPicks(t.(disconnected := t.disconnected + [current]), m) ==
                 EndPicks(s.(disconnected := s.disconnected + [current]), m)
  {
    var t, current := Judged(s, p, now), s.Current().value;
    JudgedKeepsTheRest(s, p, now);
    hide *;
    RecordsDoNotChoose(s, t, exclude, m);
    RemovedAndPut(s, t, current, p);
    RecordsDoNotChoose(s.Remove(current), t.Remove(current), exclude, m);
    RecordsDoNotChoose(s.Put(current, p), t.Put(current, p), None, m);
    RecordsDoNotChoose(
      s.(disconnected := s.disconnected + [current]), t.(disconnected := t.disconnected + [current]), None, m);
  }

  lemma RemovedAndPut(s: State, t: State, m: Id, p: Profile)
    requires t == s.(record := t.record)
    ensures t.Remove(m) == s.Remove(m).(record := t.Remove(m).record)
    ensures t.Put(m, p) == s.Put(m, p).(record := t.Put(m, p).record)
  {
  }

  lemma JudgedCanStep(s: State, p: Profile, now: real)
    requires CanStep(s)
    ensures var t, current := Judged(s, p, now), s.Current().value;
            && t.roles == s.roles && t.profiling == s.profiling
            && CanStep(t.Put(current, p)) && t.Put(current, p).roles == s.roles
  {
    PutKeepsCanStep(Judged(s, p, now), s.Current().value, p);
  }

  lemma TimedOutRobots(s: State, robot: Id, p: Profile, now: real, s': State)
    requires CanStep(s) && OnlyRobot(s, robot) && TimesOut(s, p, now) && TimeoutStep(Judged(s, p, now), now, s')
    ensures Having(s'.roles, Robot) == RobotsLeft(s.roles, robot, MessageDisplaces(s, robot, p, now))
  {
    JudgedCanStep(s, p, now);
    JudgedPicks(s, p, now, None, robot);
    TimeoutRobots(Judged(s, p, now), robot, now, s');
    hide Having, CanStep, Judged, Picks, EndPicks, TimesOut, TimeoutStep, State.Put, State.Remove;
  }

  lemma ProfiledRobots(s: State, robot: Id, p: Profile, now: real, s': State)
    requires CanStep(s) && OnlyRobot(s, robot) && !TimesOut(s, p, now) && SerialMessage(s, p, now, s')
    ensures Having(s'.roles, Robot) == RobotsLeft(s.roles, robot, MessageDisplaces(s, robot, p, now))
  {
    var current := s.Current().value;
    var t := Judged(s, p, now);
    JudgedCanStep(s, p, now);
    JudgedPicks(s, p, now, Some(current), robot);
    hide CanStep, Having, State.Put, State.Remove, State.SwitchIfAny, BestOf, MovesOn, TimeoutStep, Picks, EndPicks;
    hide Judged, CheckedRecord, TimesOut, WithinBound, Record.HasRunOutOfSkippedProfiles;
    if p.identity == current {
      if s.profiling && CheckedRecord(s, p, now).HasRunOutOfSkippedProfiles() {
        MovesOnRobots(t.Put(current, p), robot, now, s');
      } else if !s.profiling && !WithinBound(s.bounds, p) && s.automatic {
        SwitchIfAnyRobots(t, robot, Some(current), now);
      }
    }
  }

  lemma ParallelMessageRobots(s: State, p: Profile, now: real, s': State)
    requires CanStep(s) && ParallelMessage(s, p, now, s')
    ensures s'.roles == s.roles && s'.active == s.active && s'.parallel == s.parallel
  {
    hide CanStep, NonRobotList, Record.Updated;
  }

  lemma ParallelRequestRobots(s: State, now: real, s': State)
    requires CanStep(s) && Next(s, ParallelRequest, now, s')
    ensures Having(s'.roles, Robot) == Having(s.roles, Robot)
    ensures s' == s || s'.active == s.Current()
  {
    var t := s.OpenedAt(now);
    StandbyListIs(s.machines, s.roles);
    AssignEachEffect(t, StandbyList(s.machines, s.roles), Service);
    hide FirstWith, Elements;
  }

  lemma ChosenRobots(s: State, robot: Id, m: Id)
    requires CanStep(s) && m in s.roles && OnlyRobot(s, robot)
    ensures Having(s.OnlyService(m).roles, Robot) == Having(s.roles, Robot) - {m}
  {
    OnlyServiceEffect(s, m);
    hide State.OnlyService, FirstWith;
  }

  /** The machine to fall back to after parallel profiling is no robot. */
  ghost predicate FallbackIsNoRobot(s: State) {
    s.parallel ==> s.active.Some? && s.active.value !in Having(s.roles, Robot)
  }

  lemma ParallelChoice(s: State, robot: Id, now: real, s': State)
    requires CanStep(s) && OnlyRobot(s, robot) && FallbackIsNoRobot(s) && Next(s, ParallelBest, now, s')
    ensures Having(s'.roles, Robot) == RobotsLeft(s.roles, robot, Displaces(s, robot, ParallelBest, now))
  {
    var t := s.(parallel := false);
    BestIffChoice(s.bounds, s.recorded, s.profile, None, robot);
    var best := BestOf(s.bounds, s.recorded, s.profile, None);
    assert t.Best(None) == best && CanStep(t) && (best.Some? ==> best.value in s.roles);
    if s.ready && s.parallel {
      ChosenRobots(t, robot, if best.Some? then best.value else s.active.value);
    }
    hide CanStep, Having, BestOf, IsChoice, State.OnlyService;
  }

  lemma ProfilingRequestRobots(s: State, robot: Id, now: real, s': State)
    requires CanStep(s) && OnlyRobot(s, robot) && Next(s, ProfilingRequest, now, s')
    ensures Having(s'.roles, Robot) == Having(s.roles, Robot)
  {
    if !s.profiling && !s.parallel {
      assert Elements<Id>([]) == {};
      assert !EndPicks(Begun(s), robot);
      MovesOnRobots(Begun(s), robot, now, s');
    }
    hide CanStep, Having, MovesOn, EndPicks;
  }

  /** One callback, for every state and outcome of the random choice: the robots afterwards are those before, without
      the robot exactly if the callback displaces it.  So no callback ever gives the role, and the robot keeps it if
      and only if it is not displaced. */
  lemma StepRobots(s: State, robot: Id, e: Event, now: real, s': State)
    requires CanStep(s) && OnlyRobot(s, robot) && FallbackIsNoRobot(s) && Next(s, e, now, s')
    ensures Having(s'.roles, Robot) == RobotsLeft(s.roles, robot, Displaces(s, robot, e, now))
  {
    match e
    case ProfilingRequest => ProfilingRequestRobots(s, robot, now, s');
    case ParallelRequest => ParallelRequestRobots(s, now, s');
    case ParallelBest => ParallelChoice(s, robot, now, s');
    case GetBest => SwitchIfAnyRobots(s, robot, None, now);
    case ProfileMessage(p) =>
      if s.parallel {
        ParallelMessageRobots(s, p, now, s');
      } else {
        hide Judged, TimeoutStep, MovesOn, CanStep, Having, BestOf;
        if TimesOut(s, p, now) {
          TimedOutRobots(s, robot, p, now, s');
        } else {
          ProfiledRobots(s, robot, p, now, s');
        }
      }
  }

  /** One callback: the only robot is still the only robot if and only if it is not displaced. */
  lemma StepKeepsRobot(s: State, robot: Id, e: Event, now: real, s': State)
    requires CanStep(s) && Having(s.roles, Robot) == {robot} && FallbackIsNoRobot(s) && Next(s, e, now, s')
    ensures Having(s'.roles, Robot) == {robot} <==> !Displaces(s, robot, e, now)
  {
    hide CanStep, FallbackIsNoRobot, Next, Displaces, Having;
    StepRobots(s, robot, e, now, s');
    assert robot in Having(s.roles, Robot);
  }

  lemma FinishedKeepsMode(s: State, now: real)
    requires CanStep(s)
    ensures Finished(s, now).parallel == s.parallel
  {
    var done := s.(profiling := false);
    var best := done.Best(None);
    assert CanStep(done) && (best.Some? ==> best.value in done.record);
    hide CanStep, BestOf, State.SwitchTo;
    if best.Some? && |best.value| > 0 {
      SwitchKeepsTheRest(done, best.value, now);
    }
  }

  lemma MovesOnKeepsMode(s: State, now: real, s': State)
    requires CanStep(s) && MovesOn(s, now, s')
    ensures s'.parallel == s.parallel
  {
    var others := s.Unprofiled() - {s.Current().value};
    assert forall m :: m in others ==> m in s.record;
    hide CanStep, Finished, State.Unprofiled, State.SwitchTo, State.Current;
    if s.Unprofiled() == {} {
      FinishedKeepsMode(s, now);
    } else if others != {} {
      var m :| m in others && s' == s.SwitchTo(m, now);
      SwitchKeepsTheRest(s, m, now);
    }
  }

  lemma TimeoutKeepsMode(s: State, now: real, s': State)
    requires CanStep(s) && TimeoutStep(s, now, s')
    ensures s'.parallel == s.parallel
  {
    var current := s.Current().value;
    var u := s.(disconnected := s.disconnected + [current]);
    RemoveKeepsCanStep(s, current);
    assert CanStep(u);
    hide CanStep, BestOf, FirstWith, Elements, MovesOn, Without;
    if s.profiling {
      MovesOnKeepsMode(u, now, s');
    }
  }

  lemma SerialKeepsMode(s: State, p: Profile, now: real, s': State)
    requires CanStep(s) && SerialMessage(s, p, now, s')
    ensures s'.parallel == s.parallel
  {
    var current := s.Current().value;
    var t := Judged(s, p, now);
    JudgedCanStep(s, p, now);
    assert t.parallel == s.parallel && t.Put(current, p).parallel == s.parallel;
    hide CanStep, State.Put, BestOf, MovesOn, TimeoutStep, Judged, CheckedRecord, TimesOut, WithinBound, FirstWith;
    if TimesOut(s, p, now) {
      TimeoutKeepsMode(t, now, s');
    } else if p.identity == current && s.profiling && CheckedRecord(s, p, now).HasRunOutOfSkippedProfiles() {
      MovesOnKeepsMode(t.Put(current, p), now, s');
    }
  }

  /** While parallel profiling goes on the machine to fall back to is the same; it begins with the service. */
  lemma FallbackStep(s: State, e: Event, now: real, s': State)
    requires CanStep(s) && Next(s, e, now, s') && s'.parallel
    ensures s'.active == if s.parallel then s.active else s.Current()
  {
    match e
    case ProfilingRequest =>
      if !s.profiling && !s.parallel {
        assert Elements<Id>([]) == {};
        MovesOnKeepsMode(Begun(s), now, s');
      }
    case ParallelRequest => ParallelRequestRobots(s, now, s');
    case ParallelBest =>
      if s.ready && s.parallel {
        var t := s.(parallel := false);
        OnlyServiceEffect(t, if t.Best(None).Some? then t.Best(None).value else s.active.value);
      }
    case GetBest =>
    case ProfileMessage(p) =>
      if s.parallel {
        ParallelMessageRobots(s, p, now, s');
      } else {
        SerialKeepsMode(s, p, now, s');
      }
  }

  lemma StepKeepsFallback(s: State, robot: Id, e: Event, now: real, s': State)
    requires CanStep(s) && OnlyRobot(s, robot) && FallbackIsNoRobot(s) && Next(s, e, now, s')
    ensures FallbackIsNoRobot(s') && OnlyRobot(s', robot)
  {
    StepRobots(s, robot, e, now, s');
    if s'.parallel {
      FallbackStep(s, e, now, s');
    }
    hide CanStep, Next, Displaces, FirstWith;
    assert s.Current().value !in Having(s.roles, Robot);
  }

  /** None of the calls displaces the robot. */
  ghost predicate Undisplaced(t: Trace, robot: Id) {
    t.Then? ==>
      Undisplaced(t.before, robot) && CanStep(t.before.s) && !Displaces(t.before.s, robot, t.call.e, t.call.now)
  }

  /** Before and after every call, `robot` alone is the robot. */
  ghost predicate RobotThroughout(t: Trace, robot: Id) {
    Having(t.s.roles, Robot) == {robot} && (t.Then? ==> RobotThroughout(t.before, robot))
  }

  lemma {:induction false} RunRobots(t: Trace, robot: Id)
    requires Run(t) && CanStep(t.First())
    requires Having(t.First().roles, Robot) == {robot} && FallbackIsNoRobot(t.First())
    ensures OnlyRobot(t.s, robot) && FallbackIsNoRobot(t.s)
    ensures Having(t.s.roles, Robot) == if Undisplaced(t, robot) then {robot} else {}
  {
    if t.Then? {
      hide CanStep, FallbackIsNoRobot, Next, Displaces, Having;
      RunRobots(t.before, robot);
      StepRobots(t.before.s, robot, t.call.e, t.call.now, t.s);
      StepKeepsFallback(t.before.s, robot, t.call.e, t.call.now, t.s);
    }
  }

  /** In every run of callbacks the robot keeps its role throughout if and only if no call displaces it; a role once
      lost is given to nobody again. */
  lemma {:induction false} RobotKeepsItsRole(t: Trace, robot: Id)
    requires Run(t) && CanStep(t.First())
    requires Having(t.First().roles, Robot) == {robot} && FallbackIsNoRobot(t.First())
    ensures RobotThroughout(t, robot) <==> Undisplaced(t, robot)
    ensures Having(t.s.roles, Robot) == if Undisplaced(t, robot) then {robot} else {}
  {
    RunRobots(t, robot);
    hide CanStep, FallbackIsNoRobot, Next, Displaces, Having;
    if t.Then? {
      RobotKeepsItsRole(t.before, robot);
    }
  }

  /** A robot that is never recorded, as when only other machines are profiled in parallel, is never displaced. */
  lemma {:induction false} UnrecordedIsUndisplaced(t: Trace, robot: Id)
    requires Run(t) && Inv(t.First(), robot) && RobotUnrecorded(t, robot)
    ensures Undisplaced(t, robot)
  {
    if t.Then? {
      UnrecordedIsUndisplaced(t.before, robot);
      RunKeepsInv(t.before, robot);
      var s := t.before.s;
      hide Run, RobotUnrecorded, Next, Inv, TimesOut, WithinBound, CheckedRecord;
      NotRecordedNotPicked(s, robot, t.call.e, t.call.now);
    }
  }

  lemma NotRecordedNotPicked(s: State, robot: Id, e: Event, now: real)
    requires CanStep(s) && Inv(s, robot)
    ensures !Displaces(s, robot, e, now)
  {
    RobotIs(s, robot);
    hide TimesOut, WithinBound, CheckedRecord, FirstWith, Elements, Having;
  }

  // ----- The robot's role can be lost -----

  function Events(t: Trace): seq<Event> {
    if t.Begin? then [] else Events(t.before) + [t.call.e]
  }

  function Repeated(e: Event, n: nat): seq<Event> {
    if n == 0 then [] else Repeated(e, n - 1) + [e]
  }

  lemma Extended(t: Trace, e: Event, now: real, s': State)
    requires Run(t) && CanStep(t.s) && Next(t.s, e, now, s')
    ensures var t' := Then(t, Call(e, now), s'); Run(t') && t'.First() == t.First() && Events(t') == Events(t) + [e]
    ensures CanStep(s')
  {
    StepKeepsCanStep(t.s, e, now, s');
    hide CanStep, Next;
  }

  /** The first profile that counts, late enough for parallel profiling to be ready. */
  lemma Accepted(s: State, p: Profile, now: real) returns (s': State)
    requires CanStep(s) && s.parallel && p.identity in s.record && Connected(p)
    requires s.recorded == [] && s.profile == map[]
    requires s.record[p.identity].profiles == TOTAL_THROW_AWAY_PROFILES - 1 && now - s.t0 > PARALLEL_PROFILING_TIME
    ensures Next(s, ProfileMessage(p), now, s') && s'.ready && s'.parallel
    ensures s'.roles == s.roles && s'.active == s.active && Picks(s', None, p.identity)
  {
    var t := s.(record := s.record[p.identity := s.record[p.identity].Updated(p, now)]);
    s' := t.Put(p.identity, p).(ready := true);
    hide CanStep, NonRobotList, FirstWith;
    assert s'.recorded == [p.identity] && FirstOfBest(s'.bounds, s'.recorded, s'.profile, None, 0);
  }

  /** A loaded assignment with one robot and one service. */
  ghost predicate Loaded(s: State, robot: Id, service: Id) {
    && s.Valid() && !s.profiling && !s.parallel && s.profile == map[]
    && Having(s.roles, Robot) == {robot} && Having(s.roles, Service) == {service}
    && robot in s.record && s.record[robot].profiles == 0
  }

  /** A run from `s`, of a request for parallel profiling and `n` profiles of the robot, all thrown away. */
  ghost predicate Waiting(t: Trace, s: State, robot: Id, service: Id, p: Profile, n: nat) {
    && Run(t) && t.First() == s && CanStep(t.s) && Events(t) == [ParallelRequest] + Repeated(ProfileMessage(p), n)
    && t.s.parallel && t.s.t0 == 0.0 && t.s.active == Some(service) && Having(t.s.roles, Robot) == {robot}
    && t.s.recorded == [] && t.s.profile == map[] && robot in t.s.record && t.s.record[robot].profiles == n
  }

  lemma ParallelBegins(s: State, robot: Id, service: Id, p: Profile) returns (t: Trace)
    requires Loaded(s, robot, service)
    ensures Waiting(t, s, robot, service, p, 0)
  {
    InitiallyInv(s, robot, service);
    OnlyOne(s, Service, service);
    var u := s.OpenedAt(0.0);
    var s' := u.AssignEach(StandbyList(s.machines, s.roles), Service);
    ParallelRequestRobots(s, 0.0, s');
    StandbyListIs(s.machines, s.roles);
    AssignEachEffect(u, StandbyList(s.machines, s.roles), Service);
    t := Then(Begin(s), Call(ParallelRequest, 0.0), s');
    hide Having, FirstWith, Elements, State.AssignEach, StandbyList;
    assert Run(Begin(s)) && Events(Begin(s)) == [];
    Extended(Begin(s), ParallelRequest, 0.0, s');
  }

  /** A profile that arrives during parallel profiling and is thrown away. */
  lemma OneThrownAway(s: State, p: Profile, now: real) returns (s': State)
    requires CanStep(s) && s.parallel && p.identity in s.record && Connected(p)
    requires s.record[p.identity].profiles + 1 < TOTAL_THROW_AWAY_PROFILES
    ensures Next(s, ProfileMessage(p), now, s')
    ensures s' == s.(record := s'.record) && s'.record.Keys == s.record.Keys
    ensures s'.record[p.identity].profiles == s.record[p.identity].profiles + 1
  {
    s' := s.(record := s.record[p.identity := s.record[p.identity].Updated(p, now)]);
    hide CanStep, NonRobotList;
  }

  lemma OneMore(t: Trace, s: State, robot: Id, service: Id, p: Profile, n: nat) returns (t': Trace)
    requires Waiting(t, s, robot, service, p, n) && n + 1 < TOTAL_THROW_AWAY_PROFILES
    requires p.identity == robot && Connected(p)
    ensures Waiting(t', s, robot, service, p, n + 1)
  {
    hide CanStep, Next, Run, Trace.First, Connected, Having;
    var s' := OneThrownAway(t.s, p, 1.0);
    Extended(t, ProfileMessage(p), 1.0, s');
    t' := Then(t, Call(ProfileMessage(p), 1.0), s');
  }

  lemma {:induction false} ThrownAway(s: State, robot: Id, service: Id, p: Profile, n: nat) returns (t: Trace)
    requires Loaded(s, robot, service) && p.identity == robot && Connected(p) && n < TOTAL_THROW_AWAY_PROFILES
    ensures Waiting(t, s, robot, service, p, n)
  {
    hide Loaded, Waiting, Connected;
    if n == 0 {
      t := ParallelBegins(s, robot, service, p);
    } else {
      var before := ThrownAway(s, robot, service, p, n - 1);
      t := OneMore(before, s, robot, service, p, n - 1);
    }
  }

  /** The choice of the best machine when the robot is picked. */
  lemma RobotIsChosen(s: State, robot: Id, now: real) returns (s': State)
    requires CanStep(s) && s.parallel && s.ready && Picks(s, None, robot)
    requires Having(s.roles, Robot) == {robot} && s.active.Some? && s.active.value != robot
    ensures Next(s, ParallelBest, now, s') && Having(s'.roles, Robot) == {}
  {
    BestIffChoice(s.bounds, s.recorded, s.profile, None, robot);
    s' := s.(parallel := false).OnlyService(robot);
    ParallelChoice(s, robot, now, s');
  }

  /** The run up to the robot's sixth profile. */
  lemma RobotIsRecorded(s: State, robot: Id, service: Id, p: Profile) returns (t: Trace)
    requires Loaded(s, robot, service) && p.identity == robot && Connected(p)
    ensures Run(t) && t.First() == s && CanStep(t.s) && t.s.parallel && t.s.ready && Picks(t.s, None, robot)
    ensures Having(t.s.roles, Robot) == {robot} && t.s.active.Some? && t.s.active.value != robot
    ensures Events(t) == [ParallelRequest] + Repeated(ProfileMessage(p), 5) + [ProfileMessage(p)]
  {
    var thrown := ThrownAway(s, robot, service, p, 5);
    RobotIsNotService(s.roles, robot, service);
    hide Run, CanStep, Next, Having, Picks, Loaded, Connected, Events, Repeated, Trace.First;
    var u := Accepted(thrown.s, p, 1.0);
    Extended(thrown, ProfileMessage(p), 1.0, u);
    t := Then(thrown, Call(ProfileMessage(p), 1.0), u);
  }

  /** From every loaded assignment a request for parallel profiling, six connected profiles of the robot and the
      request for the best machine lead to an assignment without a robot. */
  lemma RobotLosesItsPlace(s: State, robot: Id, service: Id, p: Profile)
    requires Loaded(s, robot, service) && p.identity == robot && Connected(p)
    ensures exists t: Trace ::
              && Run(t) && t.First() == s && Having(t.s.roles, Robot) == {}
              && Events(t) == [ParallelRequest] + Repeated(ProfileMessage(p), 5) + [ProfileMessage(p)] + [ParallelBest]
  {
    var recorded := RobotIsRecorded(s, robot, service, p);
    hide *;
    var s' := RobotIsChosen(recorded.s, robot, 1.0);
    Extended(recorded, ParallelBest, 1.0, s');
    var t := Then(recorded, Call(ParallelBest, 1.0), s');
    assert Run(t) && t.First() == s && Having(t.s.roles, Robot) == {};
  }

  lemma RobotIsNotService(roles: Roles, robot: Id, service: Id)
    requires Having(roles, Robot) == {robot} && Having(roles, Service) == {service}
    ensures robot != service && service in roles
  {
    assert robot in Having(roles, Robot) && service in Having(roles, Service);
  }
}
