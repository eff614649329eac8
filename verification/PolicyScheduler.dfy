/**
  sgc_policy_scheduler.py: the scheduler itself.

  Every callback is proved to be a step of `SchedulerState.Next`, so that what `SchedulerRuns`, `SchedulerRoles` and
  `SchedulerTimeouts` prove of runs holds of it.
 */
module PolicyScheduler {
  import opened Wrappers
  import opened SchedulerState
  import SchedulerRuns

  /** How a callback ends; a `KeyError` in the source leaves the node's state as it was. */
  datatype Outcome = Done | KeyError

  class SgcService {
    const identity: Id
    var lastProfile: Option<Profile>
    var lastConnectedTime: Option<real>
    var lastSwitchedTime: real
    var numProfilesAfterConnected: nat

    ghost function Rec(): Record
      reads this
    {
      Record(lastProfile, lastConnectedTime, lastSwitchedTime, numProfilesAfterConnected)
    }

    constructor (identity: Id, now: real)
      ensures this.identity == identity && Rec() == Record(None, None, now, 0)
    {
      this.identity := identity;
      lastProfile, lastConnectedTime, lastSwitchedTime, numProfilesAfterConnected := None, None, now, 0;
    }

    method Update(p: Profile, now: real)
      modifies this
      ensures Rec() == old(Rec()).Updated(p, now)
      ensures lastProfile == Some(p) && lastSwitchedTime == old(lastSwitchedTime)
      ensures lastConnectedTime == if p.medianLatency != -1.0 then Some(now) else old(lastConnectedTime)
      ensures numProfilesAfterConnected == old(numProfilesAfterConnected) + if p.medianLatency != -1.0 then 1 else 0
    {
      if p.medianLatency != -1.0 {
        lastConnectedTime := Some(now);
        numProfilesAfterConnected := numProfilesAfterConnected + 1;
      }
      lastProfile := Some(p);
    }

    method CheckTimeout(now: real) returns (timedOut: bool)
      ensures timedOut == Rec().TimedOut(now)
      ensures timedOut <==> if lastConnectedTime.None? then now - lastSwitchedTime >= 10.0
                            else now - lastConnectedTime.value > 10.0
    {
      if lastConnectedTime.None? {
        timedOut := !(now - lastSwitchedTime < MAX_ALLOWED_DISCONNECTED_TIME);
      } else {
        timedOut := now - lastConnectedTime.value > MAX_ALLOWED_DISCONNECTED_TIME;
      }
    }

    method Reset(now: real)
      modifies this
      ensures Rec() == old(Rec()).WasReset(now)
      ensures lastConnectedTime == None && lastSwitchedTime == now && numProfilesAfterConnected == 0
      ensures lastProfile == old(lastProfile)
    {
      lastConnectedTime := None;
      lastSwitchedTime := now;
      numProfilesAfterConnected := 0;
    }
  }

  // ----- The list-building loops, one element further -----

  lemma {:induction false} PassedSnoc(b: Bounds, from: seq<Id>, m: Id, profile: map<Id, Profile>, exclude: Option<Id>)
    ensures Passed(b, from + [m], profile, exclude) ==
            Passed(b, from, profile, exclude) +
            if IsCandidate(m, profile, exclude) && WithinBound(b, profile[m]) then [m] else []
  {
    hide WithinBound, IsCandidate;
    if |from| == 0 {
      assert from + [m] == [m] && [m][1..] == [];
    } else {
      assert (from + [m])[1..] == from[1..] + [m];
      PassedSnoc(b, from[1..], m, profile, exclude);
    }
  }

  lemma {:induction false} LinkedSnoc(from: seq<Id>, m: Id, profile: map<Id, Profile>, exclude: Option<Id>)
    ensures Linked(from + [m], profile, exclude) ==
            Linked(from, profile, exclude) + if IsCandidate(m, profile, exclude) then [m] else []
  {
    hide IsCandidate;
    if |from| == 0 {
      assert from + [m] == [m] && [m][1..] == [];
    } else {
      assert (from + [m])[1..] == from[1..] + [m];
      LinkedSnoc(from[1..], m, profile, exclude);
    }
  }

  lemma {:induction false} StandbySnoc(machines: seq<Id>, m: Id, roles: Roles)
    ensures StandbyList(machines + [m], roles) ==
            StandbyList(machines, roles) + if m in roles && roles[m] == Standby then [m] else []
  {
    if |machines| == 0 {
      assert machines + [m] == [m] && [m][1..] == [];
    } else {
      assert (machines + [m])[1..] == machines[1..] + [m];
      StandbySnoc(machines[1..], m, roles);
    }
  }

  lemma {:induction false} NonRobotSnoc(machines: seq<Id>, m: Id, roles: Roles)
    ensures NonRobotList(machines + [m], roles) ==
            NonRobotList(machines, roles) + if m in roles && roles[m] != Robot then [m] else []
  {
    if |machines| == 0 {
      assert machines + [m] == [m] && [m][1..] == [];
    } else {
      assert (machines + [m])[1..] == machines[1..] + [m];
      NonRobotSnoc(machines[1..], m, roles);
    }
  }

  lemma {:induction false} WithoutSnoc(machines: seq<Id>, m: Id, x: Id)
    ensures Without(machines + [m], x) == Without(machines, x) + if m != x then [m] else []
  {
    if |machines| == 0 {
      assert machines + [m] == [m] && [m][1..] == [];
    } else {
      assert (machines + [m])[1..] == machines[1..] + [m];
      WithoutSnoc(machines[1..], m, x);
    }
  }

  lemma {:induction false} AssignEachSnoc(s: State, from: seq<Id>, m: Id, r: Role)
    ensures s.AssignEach(from + [m], r) == s.AssignEach(from, r).Assign(m, r)
    decreases |from|
  {
    hide State.Assign;
    if |from| == 0 {
      assert from + [m] == [m] && [m][1..] == [];
    } else {
      assert (from + [m])[1..] == from[1..] + [m];
      AssignEachSnoc(s.Assign(from[0], r), from[1..], m, r);
    }
  }

  class Scheduler {
    const bounds: Bounds
    const automaticSwitching: bool
    const services: map<Id, SgcService>
    var machines: seq<Id>
    var assignment: Roles
    var isDoingProfiling: bool
    var isDoingParallelProfiling: bool
    var isParallelProfilingReady: bool
    var t0: real
    var currentActiveServiceMachine: Option<Id>
    var recorded: seq<Id>
    var activeProfilingResult: map<Id, Profile>
    var disconnectedList: seq<Id>
    var requests: seq<(Id, Role)>

    /** The abstract state, tied to the fields by `Valid`. */
    ghost var s: State

    ghost predicate Valid()
      reads this, services.Values
    {
      && s.bounds == bounds && s.automatic == automaticSwitching && s.machines == machines && s.roles == assignment
      && s.profiling == isDoingProfiling && s.parallel == isDoingParallelProfiling
      && s.ready == isParallelProfilingReady && s.t0 == t0 && s.active == currentActiveServiceMachine
      && s.recorded == recorded && s.profile == activeProfilingResult && s.disconnected == disconnectedList
      && s.requests == requests
      && RecordsValid(s.record)
    }

    /** Every machine has a service object of its own, which holds its record. */
    ghost predicate RecordsValid(record: map<Id, Record>)
      reads services.Values
    {
      && record.Keys == services.Keys
      && (forall m :: m in services ==> services[m].Rec() == record[m])
      && forall m, n :: m in services && n in services && m != n ==> services[m] != services[n]
    }

    /** `_load_initial_state_assignment`; `services` holds a new service object for every machine. */
    constructor (bounds: Bounds, automatic: bool, machines: seq<Id>, assignment: Roles, services: map<Id, SgcService>)
      requires assignment.Keys == services.Keys == Elements(machines)
      requires forall m, n :: m in services && n in services && m != n ==> services[m] != services[n]
      ensures Valid() && s.Valid() && s.roles == assignment && s.requests == []
      ensures !s.profiling && !s.parallel && s.profile == map[]
      ensures CanStep(s) <==> FirstWith(machines, assignment, Service).Some?
    {
      this.bounds, automaticSwitching, this.machines, this.assignment := bounds, automatic, machines, assignment;
      this.services := services;
      isDoingProfiling, isDoingParallelProfiling, isParallelProfilingReady, t0 := false, false, false, 0.0;
      currentActiveServiceMachine := FirstWith(machines, assignment, Service);
      recorded, activeProfilingResult, disconnectedList, requests := [], map[], [], [];
      s := State(bounds, automatic, machines, assignment, map m | m in services :: services[m].Rec(),
                 false, false, false, 0.0, FirstWith(machines, assignment, Service), [], map[], [], []);
    }

    method GetStandbyMachineList() returns (r: seq<Id>)
      ensures r == StandbyList(machines, assignment)
    {
      r := [];
      for i := 0 to |machines|
        invariant r == StandbyList(machines[..i], assignment)
      {
        StandbySnoc(machines[..i], machines[i], assignment);
        assert machines[..i + 1] == machines[..i] + [machines[i]];
        if machines[i] in assignment && assignment[machines[i]] == Standby {
          r := r + [machines[i]];
        }
      }
      assert machines[..|machines|] == machines;
    }

    method GetNonRobotMachineList() returns (r: seq<Id>)
      ensures r == NonRobotList(machines, assignment)
    {
      r := [];
      for i := 0 to |machines|
        invariant r == NonRobotList(machines[..i], assignment)
      {
        NonRobotSnoc(machines[..i], machines[i], assignment);
        assert machines[..i + 1] == machines[..i] + [machines[i]];
        if machines[i] in assignment && assignment[machines[i]] != Robot {
          r := r + [machines[i]];
        }
      }
      assert machines[..|machines|] == machines;
    }

    method GetAMachineWithBetterProfile(exclude: Option<Id>) returns (m: Option<Id>)
      ensures m == BestOf(bounds, recorded, activeProfilingResult, exclude)
    {
      hide WithinBound, IsCandidate;
      var passed: seq<Id> := [];
      var connected: seq<Id> := [];
      for i := 0 to |recorded|
        invariant forall m :: m in passed || m in connected ==> m in activeProfilingResult
        invariant passed == Passed(bounds, recorded[..i], activeProfilingResult, exclude)
        invariant connected == Linked(recorded[..i], activeProfilingResult, exclude)
      {
        var machine := recorded[i];
        PassedSnoc(bounds, recorded[..i], machine, activeProfilingResult, exclude);
        LinkedSnoc(recorded[..i], machine, activeProfilingResult, exclude);
        assert recorded[..i + 1] == recorded[..i] + [machine];
        if IsCandidate(machine, activeProfilingResult, exclude) {
          CandidateIsRecorded(machine, activeProfilingResult, exclude);
          if WithinBound(bounds, activeProfilingResult[machine]) {
            passed := passed + [machine];
          }
          connected := connected + [machine];
        }
      }
      assert recorded[..|recorded|] == recorded;
      if |passed| == 0 {
        if |connected| == 0 {
          m := None;
        } else {
          m := Some(Least(connected, activeProfilingResult));
        }
      } else {
        m := Some(Least(passed, activeProfilingResult));
      }
    }

    static lemma CandidateIsRecorded(m: Id, profile: map<Id, Profile>, exclude: Option<Id>)
      ensures IsCandidate(m, profile, exclude) ==> m in profile
    {
    }

    /** Sends one assignment request. */
    method Assign(machine: Id, role: Role)
      requires Valid()
      modifies this
      ensures Valid() && s == old(s).Assign(machine, role)
    {
      assignment := assignment[machine := role];
      requests := requests + [(machine, role)];
      s := s.Assign(machine, role);
    }

    /** `reset` of one machine's object; `record` is what the objects held before. */
    method ResetRecord(machine: Id, ghost record: map<Id, Record>, now: real)
      requires RecordsValid(record) && machine in services
      modifies services[machine]
      ensures RecordsValid(record[machine := record[machine].WasReset(now)])
    {
      hide Record.WasReset;
      services[machine].Reset(now);
    }

    method ResetService(machine: Id, now: real)
      requires Valid() && machine in services && machine in s.record
      modifies this`s, services.Values
      ensures Valid() && s == old(s).(record := old(s).record[machine := old(s).record[machine].WasReset(now)])
    {
      hide Record.WasReset, RecordsValid;
      ResetRecord(machine, s.record, now);
      s := s.(record := s.record[machine := s.record[machine].WasReset(now)]);
    }

    /** Both objects of a switch are reset. */
    method ResetServices(machineNew: Id, previous: Id, now: real)
      requires Valid() && machineNew in services && previous in services && s.record.Keys == services.Keys
      modifies this`s, services.Values
      ensures Valid()
      ensures var r := old(s).record[machineNew := old(s).record[machineNew].WasReset(now)];
              s == old(s).(record := r[previous := r[previous].WasReset(now)])
    {
      hide RecordsValid, Record.WasReset, Valid;
      ResetService(machineNew, now);
      ResetService(previous, now);
    }

    /** The two requests of a switch. */
    method AssignBoth(machineNew: Id, previous: Id)
      requires Valid()
      modifies this
      ensures Valid() && s == old(s).Assign(previous, Standby).Assign(machineNew, Service)
    {
      hide RecordsValid, State.Assign, Valid;
      Assign(previous, Standby);
      Assign(machineNew, Service);
    }

    method SwitchToMachine(machineNew: Id, now: real)
      requires Valid() && CanStep(s) && machineNew in services
      modifies this, services.Values
      ensures Valid() && s == old(s).SwitchTo(machineNew, now)
    {
      var previous := FirstWith(machines, assignment, Service).value;
      assert s.record.Keys == services.Keys && s.Current() == Some(previous);
      hide FirstWith, Elements, RecordsValid, Record.WasReset, Valid, CanStep, State.Assign;
      if previous != machineNew {
        SwitchTwice(s, machineNew, now);
        ResetServices(machineNew, previous, now);
        AssignBoth(machineNew, previous);
      }
    }

    /** Resetting one machine leaves the other's record. */
    static lemma SwitchTwice(s: State, m: Id, now: real)
      requires CanStep(s) && m in s.record && s.Current() != Some(m)
      ensures var c := s.Current().value;
              var r := s.record[m := s.record[m].WasReset(now)];
              s.SwitchTo(m, now) ==
                s.(record := r[c := r[c].WasReset(now)]).Assign(c, Standby).Assign(m, Service)
    {
      hide Record.WasReset;
    }

    method SwitchToAll()
      requires Valid()
      modifies this
      ensures Valid() && s == old(s).AssignEach(StandbyList(old(s).machines, old(s).roles), Service)
    {
      hide RecordsValid, State.Assign;
      var standby := GetStandbyMachineList();
      for i := 0 to |standby|
        invariant Valid() && s == old(s).AssignEach(standby[..i], Service)
      {
        AssignEachSnoc(old(s), standby[..i], standby[i], Service);
        assert standby[..i + 1] == standby[..i] + [standby[i]];
        Assign(standby[i], Service);
      }
      assert standby[..|standby|] == standby;
    }

    method SwitchOffAllButOne(machineNew: Id)
      requires Valid()
      modifies this
      ensures Valid() && s == old(s).OnlyService(machineNew)
    {
      hide RecordsValid, State.Assign;
      var others := GetNonRobotMachineList();
      for i := 0 to |others|
        invariant Valid() && s == old(s).AssignEach(Without(others[..i], machineNew), Standby)
      {
        WithoutSnoc(others[..i], others[i], machineNew);
        assert others[..i + 1] == others[..i] + [others[i]];
        if machineNew != others[i] {
          AssignEachSnoc(old(s), Without(others[..i], machineNew), others[i], Standby);
          Assign(others[i], Standby);
        } else {
          assert Without(others[..i], machineNew) + [] == Without(others[..i], machineNew);
        }
      }
      assert others[..|others|] == others;
      Assign(machineNew, Service);
    }

    /** All machines are profiled: switch to the best one. */
    method FinishProfiling(now: real)
      requires Valid() && CanStep(s)
      modifies this, services.Values
      ensures Valid() && s == Finished(old(s), now)
    {
      StopProfiling();
      hide FirstWith, Elements, BestOf, RecordsValid, State.SwitchTo, CanStep, State.Valid;
      var best := GetAMachineWithBetterProfile(None);
      SwitchIfNamed(best, now);
    }

    method SwitchIfNamed(m: Option<Id>, now: real)
      requires Valid() && CanStep(s) && (m.Some? ==> m.value in services)
      modifies this, services.Values
      ensures Valid() && s == if m.Some? && |m.value| > 0 then old(s).SwitchTo(m.value, now) else old(s)
    {
      assert s.record.Keys == services.Keys;
      hide State.SwitchTo, Valid, CanStep;
      if m.Some? && |m.value| > 0 {
        SwitchToMachine(m.value, now);
      }
    }

    method StopProfiling()
      requires Valid() && CanStep(s)
      modifies this
      ensures Valid() && CanStep(s) && s == old(s).(profiling := false)
      ensures s.profile.Keys <= services.Keys
    {
      assert s.profile.Keys <= services.Keys;
      SchedulerRuns.OtherListsCanStep(s, false, s.disconnected);
      hide CanStep, RecordsValid;
      isDoingProfiling := false;
      s := s.(profiling := false);
    }

    method SwitchToNextUnprofiledMachine(now: real)
      requires Valid() && CanStep(s)
      modifies this, services.Values
      ensures Valid() && MovesOn(old(s), now, s)
    {
      var robot := FirstWith(machines, assignment, Robot);
      var current := FirstWith(machines, assignment, Service);
      var robots := if robot.Some? then {robot.value} else {};
      var profiled := activeProfilingResult.Keys + robots + Elements(disconnectedList);
      var unprofiled := assignment.Keys - profiled;
      assert unprofiled == s.Unprofiled() && current == s.Current() && assignment.Keys == services.Keys;
      hide Valid, CanStep, State.SwitchTo, State.Unprofiled, State.Current, Finished, FirstWith, Elements;
      if unprofiled == {} {
        FinishProfiling(now);
      } else {
        var others := unprofiled - {current.value};
        if others == {} {
          SwitchToCurrent(s, now);
          SwitchToMachine(current.value, now);
        } else {
          var choice :| choice in others;
          SwitchToMachine(choice, now);
        }
      }
    }

    static lemma SwitchToCurrent(s: State, now: real)
      requires CanStep(s)
      ensures s.SwitchTo(s.Current().value, now) == s
    {
    }

    method HandleTimeout(now: real)
      requires Valid() && CanStep(s)
      modifies this, services.Values
      ensures Valid() && TimeoutStep(old(s), now, s)
    {
      assert s.profiling == isDoingProfiling;
      hide BestOf, MovesOn, Valid, CanStep, State.Remove, State.Current, State.SwitchIfAny;
      if isDoingProfiling {
        DisconnectCurrent();
        SwitchToNextUnprofiledMachine(now);
      } else {
        ForgetCurrent();
        SwitchToBetter(None, now);
      }
    }

    /** Counts the service as disconnected. */
    method DisconnectCurrent()
      requires Valid() && CanStep(s)
      modifies this
      ensures Valid() && CanStep(s)
      ensures s == old(s).(disconnected := old(s).disconnected + [old(s).Current().value])
    {
      var current := FirstWith(machines, assignment, Service).value;
      assert s.Current() == Some(current) && s.disconnected == disconnectedList;
      hide CanStep, RecordsValid, FirstWith, State.Current;
      Disconnect(current);
    }

    method Disconnect(machine: Id)
      requires Valid() && CanStep(s)
      modifies this
      ensures Valid() && CanStep(s) && s == old(s).(disconnected := old(s).disconnected + [machine])
    {
      hide CanStep, RecordsValid;
      var list := disconnectedList + [machine];
      SchedulerRuns.OtherListsCanStep(s, s.profiling, list);
      disconnectedList := list;
      s := s.(disconnected := list);
    }

    /** Removes the service from the results. */
    method ForgetCurrent()
      requires Valid() && CanStep(s)
      modifies this
      ensures Valid() && CanStep(s) && s == old(s).Remove(old(s).Current().value)
    {
      hide FirstWith, Elements, RecordsValid;
      var current := FirstWith(machines, assignment, Service).value;
      RemoveKeepsCanStep(s, current);
      recorded := Without(recorded, current);
      activeProfilingResult := activeProfilingResult - {current};
      s := s.Remove(current);
    }

    method SwitchToBetter(exclude: Option<Id>, now: real)
      requires Valid() && CanStep(s)
      modifies this, services.Values
      ensures Valid() && s == old(s).SwitchIfAny(old(s).Best(exclude), now)
    {
      assert s.record.Keys == services.Keys;
      hide FirstWith, Elements, BestOf, RecordsValid, State.SwitchTo;
      var better := GetAMachineWithBetterProfile(exclude);
      if better.Some? {
        SwitchToMachine(better.value, now);
      }
    }

    method RecordProfile(machine: Id, p: Profile)
      requires Valid()
      modifies this
      ensures Valid() && s == old(s).Put(machine, p)
    {
      if machine !in activeProfilingResult {
        recorded := recorded + [machine];
      }
      activeProfilingResult := activeProfilingResult[machine := p];
      s := s.Put(machine, p);
    }

    /** `SGC_Service.update` on one machine's object; `record` is what the objects held before. */
    method UpdateRecord(machine: Id, p: Profile, ghost record: map<Id, Record>, now: real) returns (ranOut: bool)
      requires RecordsValid(record) && machine in services
      modifies services[machine]
      ensures RecordsValid(record[machine := record[machine].Updated(p, now)])
      ensures ranOut == record[machine].Updated(p, now).HasRunOutOfSkippedProfiles()
    {
      hide Record.Updated;
      services[machine].Update(p, now);
      ranOut := services[machine].numProfilesAfterConnected >= TOTAL_THROW_AWAY_PROFILES;
    }

    method UpdateService(machine: Id, p: Profile, now: real) returns (ranOut: bool)
      requires Valid() && machine in services && machine in s.record
      modifies this`s, services.Values
      ensures Valid() && s == old(s).(record := old(s).record[machine := old(s).record[machine].Updated(p, now)])
      ensures ranOut == old(s).record[machine].Updated(p, now).HasRunOutOfSkippedProfiles()
    {
      hide Record.Updated, Record.HasRunOutOfSkippedProfiles, RecordsValid;
      ranOut := UpdateRecord(machine, p, s.record, now);
      s := s.(record := s.record[machine := s.record[machine].Updated(p, now)]);
    }

    method ServiceTimedOut(machine: Id, now: real) returns (timedOut: bool)
      requires Valid() && machine in services && machine in s.record
      ensures timedOut == s.record[machine].TimedOut(now)
    {
      hide Record.TimedOut;
      timedOut := services[machine].CheckTimeout(now);
    }

    method ProfileTopicCallback(p: Profile, now: real) returns (outcome: Outcome)
      requires Valid() && CanStep(s)
      modifies this, services.Values
      ensures Valid() && CanStep(s) && Next(old(s), ProfileMessage(p), now, s)
      ensures outcome == KeyError <==> old(s).parallel && p.identity !in services
    {
      hide SerialMessage, ParallelMessage, CanStep;
      if isDoingParallelProfiling {
        outcome := ParallelProfile(p, now);
      } else {
        SerialProfile(p, now);
        outcome := Done;
      }
      SchedulerRuns.StepKeepsCanStep(old(s), ProfileMessage(p), now, s);
    }

    method ParallelProfile(p: Profile, now: real) returns (outcome: Outcome)
      requires Valid() && CanStep(s)
      modifies this, services.Values
      ensures Valid() && ParallelMessage(old(s), p, now, s)
      ensures outcome == KeyError <==> p.identity !in services
    {
      assert services.Keys == s.record.Keys;
      hide Valid, CanStep, NonRobotList, Record.Updated, Record.HasRunOutOfSkippedProfiles, State.Put, RecordsValid,
           FirstWith, Elements;
      if p.identity !in services {
        return KeyError;
      }
      ghost var before := s;
      var ranOut := UpdateService(p.identity, p, now);
      ghost var noted := s;
      if ranOut {
        RecordProfile(p.identity, p);
        assert s == noted.Put(p.identity, p);
        CheckReady(now);
      }
      assert ParallelMessage(before, p, now, s);
      return Done;
    }

    /** Parallel profiling is ready when as many machines as there are servers have a profile, or time is up. */
    method CheckReady(now: real)
      requires Valid()
      modifies this
      ensures Valid()
      ensures s == if |old(s).recorded| == |NonRobotList(old(s).machines, old(s).roles)| ||
                      now - old(s).t0 > PARALLEL_PROFILING_TIME
                   then old(s).(ready := true) else old(s)
    {
      hide RecordsValid, NonRobotList;
      var servers := GetNonRobotMachineList();
      if |recorded| == |servers| || now - t0 > PARALLEL_PROFILING_TIME {
        isParallelProfilingReady := true;
        s := s.(ready := true);
      }
    }

    method SerialProfile(p: Profile, now: real)
      requires Valid() && CanStep(s)
      modifies this, services.Values
      ensures Valid() && SerialMessage(old(s), p, now, s)
    {
      assert services.Keys == s.record.Keys;
      var current := FirstWith(machines, assignment, Service).value;
      assert s.Current() == Some(current);
      hide FirstWith, Elements, TimeoutStep, Record.TimedOut, Record.Updated, Record.HasRunOutOfSkippedProfiles,
           MovesOn, BestOf, Valid;
      if p.identity != current {
        WatchCurrent(current, p, now);
      } else {
        ghost var before := s;
        var ranOut := UpdateService(current, p, now);
        assert s == Judged(before, p, now);
        hide Judged;
        JudgeProfile(before, current, p, ranOut, now);
      }
    }

    /** Another machine's profile is only an occasion to look at the current one's timeout. */
    method WatchCurrent(current: Id, p: Profile, now: real)
      requires Valid() && CanStep(s) && current in services && s.record.Keys == services.Keys
      requires s.Current() == Some(current) && p.identity != current
      modifies this, services.Values
      ensures Valid() && SerialMessage(old(s), p, now, s)
    {
      assert s.record[current := s.record[current]] == s.record;
      assert s == Judged(s, p, now) && CheckedRecord(s, p, now) == s.record[current];
      hide Judged, CheckedRecord, Record.TimedOut, TimeoutStep, Valid, CanStep, State.Current;
      var timedOut := ServiceTimedOut(current, now);
      if timedOut {
        HandleTimeout(now);
      }
    }

    /** What follows once the current machine's own profile has been taken in. */
    method JudgeProfile(ghost before: State, current: Id, p: Profile, ranOut: bool, now: real)
      requires Valid() && CanStep(before) && CanStep(s) && s == Judged(before, p, now)
      requires current == p.identity && before.Current() == Some(current)
      requires ranOut == CheckedRecord(before, p, now).HasRunOutOfSkippedProfiles()
      modifies this, services.Values
      ensures Valid() && SerialMessage(before, p, now, s)
    {
      assert services.Keys == s.record.Keys && s.record[current] == CheckedRecord(before, p, now);
      hide FirstWith, Elements, TimeoutStep, Record.TimedOut, Record.Updated, Record.HasRunOutOfSkippedProfiles,
           WithinBound, MovesOn, State.SwitchIfAny, BestOf, RecordsValid, CheckedRecord;
      var timedOut := ServiceTimedOut(current, now);
      if timedOut {
        HandleTimeout(now);
      } else if isDoingProfiling {
        if ranOut {
          PutKeepsCanStep(s, current, p);
          RecordProfile(current, p);
          SwitchToNextUnprofiledMachine(now);
        }
      } else if !WithinBound(bounds, p) && automaticSwitching {
        SwitchToBetter(Some(current), now);
      }
    }

    method SgcProfilingOptimizerCallback(now: real)
      requires Valid() && CanStep(s)
      modifies this, services.Values
      ensures Valid() && CanStep(s) && Next(old(s), ProfilingRequest, now, s)
    {
      assert s.profiling == isDoingProfiling && s.parallel == isDoingParallelProfiling;
      hide MovesOn, Valid, CanStep;
      if isDoingProfiling || isDoingParallelProfiling {
        return;
      }
      BeginProfiling();
      SwitchToNextUnprofiledMachine(now);
      SchedulerRuns.StepKeepsCanStep(old(s), ProfilingRequest, now, s);
    }

    method BeginProfiling()
      requires Valid() && CanStep(s)
      modifies this
      ensures Valid() && CanStep(s)
      ensures s == SchedulerRuns.Begun(old(s))
    {
      hide CanStep, RecordsValid;
      SchedulerRuns.BegunCanStep(s);
      isDoingProfiling := true;
      recorded, activeProfilingResult := [], map[];
      disconnectedList := [];
      s := SchedulerRuns.Begun(s);
    }

    method SgcParallelProfilingCallback(now: real)
      requires Valid() && CanStep(s)
      modifies this
      ensures Valid() && CanStep(s) && Next(old(s), ParallelRequest, now, s)
    {
      assert s.profiling == isDoingProfiling && s.parallel == isDoingParallelProfiling;
      OpenedKeepsMachines(s, now);
      hide Valid, CanStep, StandbyList, State.AssignEach, State.OpenedAt;
      if isDoingProfiling || isDoingParallelProfiling {
        return;
      }
      BeginParallelProfiling(now);
      SwitchToAll();
      SchedulerRuns.StepKeepsCanStep(old(s), ParallelRequest, now, s);
    }

    static lemma OpenedKeepsMachines(s: State, now: real)
      ensures s.OpenedAt(now).machines == s.machines && s.OpenedAt(now).roles == s.roles
    {
    }

    method BeginParallelProfiling(now: real)
      requires Valid()
      modifies this
      ensures Valid() && s == old(s).OpenedAt(now)
    {
      hide FirstWith, RecordsValid;
      currentActiveServiceMachine := FirstWith(machines, assignment, Service);
      isDoingParallelProfiling := true;
      isParallelProfilingReady := false;
      recorded, activeProfilingResult := [], map[];
      t0 := now;
      s := s.OpenedAt(now);
    }

    /** A switch, and the search once more: it finds the same machine, since only roles and records have changed. */
    method SwitchAndSearch(m: Id, now: real) returns (best: Option<Id>)
      requires Valid() && CanStep(s) && m in services
      modifies this, services.Values
      ensures Valid() && s == old(s).SwitchTo(m, now) && best == old(s).Best(None)
    {
      assert s.record.Keys == services.Keys;
      SwitchKeepsTheRest(s, m, now);
      hide State.SwitchTo, BestOf, CanStep, RecordsValid;
      SwitchToMachine(m, now);
      best := GetAMachineWithBetterProfile(None);
    }

    method GetMachineWithBetterProfileCallback(now: real) returns (outcome: Outcome, best: Option<Id>)
      requires Valid() && CanStep(s)
      modifies this, services.Values
      ensures Valid() && CanStep(s) && Next(old(s), GetBest, now, s)
      ensures outcome == KeyError <==> old(s).Best(None).None?
      ensures best == old(s).Best(None)
    {
      assert s.record.Keys == services.Keys;
      best := GetAMachineWithBetterProfile(None);
      assert best == s.Best(None) && (best.Some? ==> best.value in services);
      hide FirstWith, Elements, BestOf, State.Best, RecordsValid, Valid, CanStep, State.SwitchTo;
      if best.None? {
        return KeyError, None;
      }
      best := SwitchAndSearch(best.value, now);
      outcome := Done;
      SchedulerRuns.StepKeepsCanStep(old(s), GetBest, now, s);
    }

    method SgcParallelProfilingBestCallback(now: real) returns (chosen: Option<Id>)
      requires Valid() && CanStep(s)
      modifies this
      ensures Valid() && CanStep(s) && Next(old(s), ParallelBest, now, s)
    {
      hide FirstWith, Elements, BestOf, State.OnlyService, RecordsValid;
      chosen := None;
      if isParallelProfilingReady && isDoingParallelProfiling {
        isDoingParallelProfiling := false;
        s := s.(parallel := false);
        chosen := GetAMachineWithBetterProfile(None);
        if chosen.None? {
          chosen := currentActiveServiceMachine;
        }
        SwitchOffAllButOne(chosen.value);
      }
      SchedulerRuns.StepKeepsCanStep(old(s), ParallelBest, now, s);
    }
  }
}
