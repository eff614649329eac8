/**
  sgc_policy_scheduler.py: what the placement scheduler knows, and what each callback does to it.
 */
module SchedulerState {
  import opened Wrappers

  // A callback is one step.  `time.time()` is a parameter of the step, and `random.choice` is an existentially
  // quantified machine, so that a step is a relation between states.

  type Id = string

  datatype Role = Robot | Service | Standby

  datatype Profile = Profile(
    identity: Id, medianLatency: real, maxLatency: real, meanLatency: real, minLatency: real,
    stdLatency: real, maxKmeansLatency: real)

  /** The configured limits; -1 switches one off. */
  datatype Bounds = Bounds(smart: real, max: real, mean: real, median: real, min: real, std: real)

  const OFF: real := -1.0
  const TOTAL_THROW_AWAY_PROFILES: nat := 6
  const MAX_ALLOWED_DISCONNECTED_TIME: real := 10.0
  const PARALLEL_PROFILING_TIME: real := 0.05

  predicate Connected(p: Profile) {
    p.medianLatency != OFF
  }

  /** `_check_latency_bound` */
  predicate WithinBound(b: Bounds, p: Profile) {
    && Connected(p)
    && (b.smart == OFF || p.maxKmeansLatency <= b.smart)
    && (b.max == OFF || p.maxLatency <= b.max)
    && (b.mean == OFF || p.meanLatency <= b.mean)
    && (b.median == OFF || p.medianLatency <= b.median)
    && (b.min == OFF || p.minLatency >= b.min)
    && (b.std == OFF || p.stdLatency <= b.std)
  }

  /** A profile is out of bounds when it shows no connection or exceeds a limit that is not switched off; the limit on
      the least latency is one from below. */
  lemma OutOfBounds(b: Bounds, p: Profile)
    ensures !WithinBound(b, p) <==>
              || p.medianLatency == -1.0
              || (b.smart != -1.0 && p.maxKmeansLatency > b.smart)
              || (b.max != -1.0 && p.maxLatency > b.max)
              || (b.mean != -1.0 && p.meanLatency > b.mean)
              || (b.median != -1.0 && p.medianLatency > b.median)
              || (b.min != -1.0 && p.minLatency < b.min)
              || (b.std != -1.0 && p.stdLatency > b.std)
  {
  }

  /** The fields of an `SGC_Service`. */
  datatype Record = Record(
    lastProfile: Option<Profile>, lastConnected: Option<real>, lastSwitched: real, profiles: nat)
  {
    function Updated(p: Profile, now: real): Record {
      var r := this.(lastProfile := Some(p));
      if Connected(p) then r.(lastConnected := Some(now), profiles := profiles + 1) else r
    }

    predicate TimedOut(now: real) {
      match lastConnected
      case None => now - lastSwitched >= MAX_ALLOWED_DISCONNECTED_TIME
      case Some(t) => now - t > MAX_ALLOWED_DISCONNECTED_TIME
    }

    predicate HasRunOutOfSkippedProfiles() {
      profiles >= TOTAL_THROW_AWAY_PROFILES
    }

    function WasReset(now: real): Record {
      this.(lastConnected := None, lastSwitched := now, profiles := 0)
    }
  }

  type Roles = map<Id, Role>

  /** The first machine, in dictionary order, that has a role. */
  function FirstWith(machines: seq<Id>, roles: Roles, r: Role): (m: Option<Id>)
    ensures m.Some? ==> m.value in machines && m.value in roles && roles[m.value] == r
    ensures m.None? ==> forall i :: 0 <= i < |machines| && machines[i] in roles ==> roles[machines[i]] != r
  {
    if |machines| == 0 then None
    else if machines[0] in roles && roles[machines[0]] == r then Some(machines[0])
    else FirstWith(machines[1..], roles, r)
  }

  function Having(roles: Roles, r: Role): set<Id> {
    set m | m in roles && roles[m] == r
  }

  function NonRobots(roles: Roles): set<Id> {
    set m | m in roles && roles[m] != Robot
  }

  function StandbyList(machines: seq<Id>, roles: Roles): seq<Id> {
    if |machines| == 0 then []
    else if machines[0] in roles && roles[machines[0]] == Standby then [machines[0]] + StandbyList(machines[1..], roles)
    else StandbyList(machines[1..], roles)
  }

  function NonRobotList(machines: seq<Id>, roles: Roles): seq<Id> {
    if |machines| == 0 then []
    else if machines[0] in roles && roles[machines[0]] != Robot then [machines[0]] + NonRobotList(machines[1..], roles)
    else NonRobotList(machines[1..], roles)
  }

  function Elements<T>(s: seq<T>): set<T> {
    set x | x in s
  }

  /** The machine of least maximal latency; the earliest one among equals. */
  function Least(candidates: seq<Id>, profile: map<Id, Profile>): (m: Id)
    requires |candidates| > 0 && forall c :: c in candidates ==> c in profile
    ensures m in candidates
    ensures forall c :: c in candidates ==> profile[m].maxLatency <= profile[c].maxLatency
  {
    if |candidates| == 1 then candidates[0] else
    var m := Least(candidates[1..], profile);
    if profile[candidates[0]].maxLatency <= profile[m].maxLatency then candidates[0] else m
  }

  /** Sorting is stable: a machine before the chosen one is strictly slower. */
  lemma {:induction false} LeastIsEarliest(candidates: seq<Id>, profile: map<Id, Profile>, i: nat)
    requires |candidates| > 0 && forall c :: c in candidates ==> c in profile
    requires i < |candidates| && Least(candidates, profile) !in candidates[..i + 1]
    ensures profile[Least(candidates, profile)].maxLatency < profile[candidates[i]].maxLatency
  {
    var m := Least(candidates, profile);
    assert candidates[0] in candidates[..i + 1];
    if i > 0 {
      assert candidates[1..][..i] == candidates[..i + 1][1..];
      LeastIsEarliest(candidates[1..], profile, i - 1);
    }
  }

  predicate IsCandidate(m: Id, profile: map<Id, Profile>, exclude: Option<Id>) {
    m in profile && Connected(profile[m]) && Some(m) != exclude
  }

  function Passed(bounds: Bounds, from: seq<Id>, profile: map<Id, Profile>, exclude: Option<Id>): (r: seq<Id>)
    ensures forall m :: m in r <==> m in from && IsCandidate(m, profile, exclude) && WithinBound(bounds, profile[m])
  {
    if |from| == 0 then []
    else if IsCandidate(from[0], profile, exclude) && WithinBound(bounds, profile[from[0]])
    then [from[0]] + Passed(bounds, from[1..], profile, exclude)
    else Passed(bounds, from[1..], profile, exclude)
  }

  function Linked(from: seq<Id>, profile: map<Id, Profile>, exclude: Option<Id>): (r: seq<Id>)
    ensures forall m :: m in r <==> m in from && IsCandidate(m, profile, exclude)
  {
    if |from| == 0 then []
    else if IsCandidate(from[0], profile, exclude)
    then [from[0]] + Linked(from[1..], profile, exclude)
    else Linked(from[1..], profile, exclude)
  }

  function BestOf(bounds: Bounds, recorded: seq<Id>, profile: map<Id, Profile>, exclude: Option<Id>): (m: Option<Id>)
    ensures m.Some? ==> m.value in recorded && m.value in profile && m != exclude
  {
    var passed := Passed(bounds, recorded, profile, exclude);
    var linked := Linked(recorded, profile, exclude);
    if |passed| > 0 then Some(Least(passed, profile))
    else if |linked| > 0 then Some(Least(linked, profile))
    else None
  }

  /** The choice, said outright: nothing if no candidate is connected; otherwise, of those within the bounds
      if there are any and of all if there are none, one of least maximal latency. */
  lemma BestIsLeast(bounds: Bounds, recorded: seq<Id>, profile: map<Id, Profile>, exclude: Option<Id>)
    ensures var best := BestOf(bounds, recorded, profile, exclude);
            && (best.None? <==> forall m :: m in recorded ==> !IsCandidate(m, profile, exclude))
            && (best.Some? ==>
                 var b := best.value;
                 && b in recorded && IsCandidate(b, profile, exclude)
                 && forall m :: m in recorded && IsCandidate(m, profile, exclude) ==>
                      if WithinBound(bounds, profile[b])
                      then WithinBound(bounds, profile[m]) ==> profile[b].maxLatency <= profile[m].maxLatency
                      else !WithinBound(bounds, profile[m]) && profile[b].maxLatency <= profile[m].maxLatency)
  {
    var passed := Passed(bounds, recorded, profile, exclude);
    var linked := Linked(recorded, profile, exclude);
    assert |passed| > 0 ==> passed[0] in passed;
    assert |linked| > 0 ==> linked[0] in linked;
  }

  /** Within the limits comes first, then the smaller maximal latency. */
  predicate Outranks(b: Bounds, p: Profile, q: Profile) {
    if WithinBound(b, p) == WithinBound(b, q) then p.maxLatency < q.maxLatency else WithinBound(b, p)
  }

  /** The `i`-th recorded machine is a candidate, outranks every earlier one, and no later one outranks it. */
  predicate FirstOfBest(bounds: Bounds, recorded: seq<Id>, profile: map<Id, Profile>, exclude: Option<Id>, i: nat)
    requires i < |recorded|
  {
    && IsCandidate(recorded[i], profile, exclude)
    && (forall j :: 0 <= j < i && IsCandidate(recorded[j], profile, exclude) ==>
          Outranks(bounds, profile[recorded[i]], profile[recorded[j]]))
    && (forall j :: i < j < |recorded| && IsCandidate(recorded[j], profile, exclude) ==>
          !Outranks(bounds, profile[recorded[j]], profile[recorded[i]]))
  }

  /** The choice told from the recorded profiles alone. */
  predicate IsChoice(bounds: Bounds, recorded: seq<Id>, profile: map<Id, Profile>, exclude: Option<Id>, m: Id) {
    exists i :: 0 <= i < |recorded| && recorded[i] == m && FirstOfBest(bounds, recorded, profile, exclude, i)
  }

  lemma LeastOfHead(h: Id, rest: seq<Id>, profile: map<Id, Profile>)
    requires |rest| > 0 && h in profile && forall c :: c in rest ==> c in profile
    ensures forall c :: c in [h] + rest ==> c in profile
    ensures var m := Least(rest, profile);
            Least([h] + rest, profile) == if profile[h].maxLatency <= profile[m].maxLatency then h else m
  {
    assert ([h] + rest)[1..] == rest;
  }

  lemma LeastOfOne(h: Id, profile: map<Id, Profile>)
    requires h in profile
    ensures Least([h], profile) == h
  {
  }

  /** What the search in the other machines returns is within the limits if anything is. */
  lemma RestIsBest(bounds: Bounds, recorded: seq<Id>, profile: map<Id, Profile>, exclude: Option<Id>)
    ensures var best := BestOf(bounds, recorded, profile, exclude);
            && (best.None? <==> Linked(recorded, profile, exclude) == [])
            && (best.Some? ==> best.value in profile)
            && (best.Some? ==>
                  (WithinBound(bounds, profile[best.value]) <==> Passed(bounds, recorded, profile, exclude) != []))
  {
    var passed, linked := Passed(bounds, recorded, profile, exclude), Linked(recorded, profile, exclude);
    hide WithinBound;
    assert |passed| > 0 ==> passed[0] in linked;
    hide Least, Passed, Linked;
    if |passed| == 0 && |linked| > 0 {
      var m := Least(linked, profile);
      assert m in linked && m !in passed;
    }
  }

  lemma HeadWithin(bounds: Bounds, recorded: seq<Id>, profile: map<Id, Profile>, exclude: Option<Id>)
    requires |recorded| > 0 && IsCandidate(recorded[0], profile, exclude) && WithinBound(bounds, profile[recorded[0]])
    ensures var h, rest := recorded[0], BestOf(bounds, recorded[1..], profile, exclude);
            BestOf(bounds, recorded, profile, exclude) ==
              if rest.None? || !Outranks(bounds, profile[rest.value], profile[h]) then Some(h) else rest
  {
    var h, passed := recorded[0], Passed(bounds, recorded[1..], profile, exclude);
    RestIsBest(bounds, recorded[1..], profile, exclude);
    assert Passed(bounds, recorded, profile, exclude) == [h] + passed;
    hide WithinBound, Passed, Linked, Least;
    if |passed| > 0 {
      LeastOfHead(h, passed, profile);
    } else {
      assert [h] + passed == [h];
      LeastOfOne(h, profile);
    }
  }

  lemma HeadNotWithin(bounds: Bounds, recorded: seq<Id>, profile: map<Id, Profile>, exclude: Option<Id>)
    requires |recorded| > 0 && IsCandidate(recorded[0], profile, exclude) && !WithinBound(bounds, profile[recorded[0]])
    ensures var h, rest := recorded[0], BestOf(bounds, recorded[1..], profile, exclude);
            BestOf(bounds, recorded, profile, exclude) ==
              if rest.None? || !Outranks(bounds, profile[rest.value], profile[h]) then Some(h) else rest
  {
    var h, linked := recorded[0], Linked(recorded[1..], profile, exclude);
    RestIsBest(bounds, recorded[1..], profile, exclude);
    assert Passed(bounds, recorded, profile, exclude) == Passed(bounds, recorded[1..], profile, exclude);
    assert Linked(recorded, profile, exclude) == [h] + linked;
    hide WithinBound, Passed, Linked, Least;
    if |linked| > 0 {
      LeastOfHead(h, linked, profile);
    } else {
      assert [h] + linked == [h];
      LeastOfOne(h, profile);
    }
  }

  /** One more machine in front of the others. */
  lemma BestOfHead(bounds: Bounds, recorded: seq<Id>, profile: map<Id, Profile>, exclude: Option<Id>)
    requires |recorded| > 0
    ensures var h, rest := recorded[0], BestOf(bounds, recorded[1..], profile, exclude);
            BestOf(bounds, recorded, profile, exclude) ==
              if !IsCandidate(h, profile, exclude) then rest
              else if rest.None? || !Outranks(bounds, profile[rest.value], profile[h]) then Some(h)
              else rest
  {
    hide WithinBound, Least, Outranks;
    if !IsCandidate(recorded[0], profile, exclude) {
      assert Passed(bounds, recorded, profile, exclude) == Passed(bounds, recorded[1..], profile, exclude);
      assert Linked(recorded, profile, exclude) == Linked(recorded[1..], profile, exclude);
    } else {
      hide BestOf, Passed, Linked;
      if WithinBound(bounds, profile[recorded[0]]) {
        HeadWithin(bounds, recorded, profile, exclude);
      } else {
        HeadNotWithin(bounds, recorded, profile, exclude);
      }
    }
  }

  lemma NobodyOutranks(bounds: Bounds, recorded: seq<Id>, profile: map<Id, Profile>, exclude: Option<Id>, j: nat)
    requires j < |recorded| && IsCandidate(recorded[j], profile, exclude)
    ensures var best := BestOf(bounds, recorded, profile, exclude);
            best.Some? && !Outranks(bounds, profile[recorded[j]], profile[best.value])
  {
    BestIsLeast(bounds, recorded, profile, exclude);
    hide WithinBound, BestOf;
  }

  lemma FirstOfBestTail(bounds: Bounds, recorded: seq<Id>, profile: map<Id, Profile>, exclude: Option<Id>, i: nat)
    requires 0 < i < |recorded|
    ensures FirstOfBest(bounds, recorded, profile, exclude, i) <==>
            && FirstOfBest(bounds, recorded[1..], profile, exclude, i - 1)
            && (IsCandidate(recorded[0], profile, exclude) ==>
                  Outranks(bounds, profile[recorded[i]], profile[recorded[0]]))
  {
    hide IsCandidate, Outranks;
    var rest := recorded[1..];
    assert forall j :: 0 < j < |recorded| ==> recorded[j] == rest[j - 1];
    assert forall j :: 0 <= j < |rest| ==> rest[j] == recorded[j + 1];
  }

  lemma FirstIsBest(bounds: Bounds, recorded: seq<Id>, profile: map<Id, Profile>, exclude: Option<Id>)
    requires |recorded| > 0 && IsCandidate(recorded[0], profile, exclude)
    requires var rest := BestOf(bounds, recorded[1..], profile, exclude);
             rest.None? || !Outranks(bounds, profile[rest.value], profile[recorded[0]])
    ensures FirstOfBest(bounds, recorded, profile, exclude, 0)
  {
    forall j | 0 < j < |recorded| && IsCandidate(recorded[j], profile, exclude)
      ensures !Outranks(bounds, profile[recorded[j]], profile[recorded[0]])
    {
      assert recorded[1..][j - 1] == recorded[j];
      NobodyOutranks(bounds, recorded[1..], profile, exclude, j - 1);
    }
    hide BestOf, WithinBound;
  }

  lemma ChoiceOfTail(bounds: Bounds, recorded: seq<Id>, profile: map<Id, Profile>, exclude: Option<Id>, m: Id)
    requires |recorded| > 0 && IsChoice(bounds, recorded[1..], profile, exclude, m) && m in profile
    requires IsCandidate(recorded[0], profile, exclude) ==> Outranks(bounds, profile[m], profile[recorded[0]])
    ensures IsChoice(bounds, recorded, profile, exclude, m)
  {
    var rest := recorded[1..];
    hide Outranks, FirstOfBest;
    var i :| 0 <= i < |rest| && rest[i] == m && FirstOfBest(bounds, rest, profile, exclude, i);
    assert recorded[i + 1] == m;
    FirstOfBestTail(bounds, recorded, profile, exclude, i + 1);
  }

  lemma ChoiceOfHead(bounds: Bounds, recorded: seq<Id>, profile: map<Id, Profile>, exclude: Option<Id>)
    requires |recorded| > 0 && FirstOfBest(bounds, recorded, profile, exclude, 0)
    ensures IsChoice(bounds, recorded, profile, exclude, recorded[0])
  {
    hide FirstOfBest;
  }

  lemma {:induction false} BestIsChoice(
    bounds: Bounds, recorded: seq<Id>, profile: map<Id, Profile>, exclude: Option<Id>, m: Id)
    requires BestOf(bounds, recorded, profile, exclude) == Some(m)
    ensures IsChoice(bounds, recorded, profile, exclude, m)
  {
    BestIsRecorded(bounds, recorded, profile, exclude);
    assert |recorded| > 0 && (IsCandidate(recorded[0], profile, exclude) ==> recorded[0] in profile);
    BestOfHead(bounds, recorded, profile, exclude);
    assert m in profile;
    hide *;
    if BestOf(bounds, recorded[1..], profile, exclude) == Some(m) &&
       (IsCandidate(recorded[0], profile, exclude) ==> Outranks(bounds, profile[m], profile[recorded[0]])) {
      BestIsChoice(bounds, recorded[1..], profile, exclude, m);
      ChoiceOfTail(bounds, recorded, profile, exclude, m);
    } else {
      FirstIsBest(bounds, recorded, profile, exclude);
      ChoiceOfHead(bounds, recorded, profile, exclude);
    }
  }

  lemma {:induction false} FirstOfBestIsBest(
    bounds: Bounds, recorded: seq<Id>, profile: map<Id, Profile>, exclude: Option<Id>, i: nat)
    requires i < |recorded| && FirstOfBest(bounds, recorded, profile, exclude, i)
    ensures BestOf(bounds, recorded, profile, exclude) == Some(recorded[i])
  {
    BestOfHead(bounds, recorded, profile, exclude);
    if i > 0 {
      FirstOfBestTail(bounds, recorded, profile, exclude, i);
      FirstOfBestIsBest(bounds, recorded[1..], profile, exclude, i - 1);
    } else {
      BestIsRecorded(bounds, recorded[1..], profile, exclude);
    }
  }

  lemma BestIsRecorded(bounds: Bounds, recorded: seq<Id>, profile: map<Id, Profile>, exclude: Option<Id>)
    ensures var best := BestOf(bounds, recorded, profile, exclude);
            best.Some? ==> IsCandidate(best.value, profile, exclude) &&
                           exists j :: 0 <= j < |recorded| && recorded[j] == best.value
  {
    BestIsLeast(bounds, recorded, profile, exclude);
    hide BestOf, IsCandidate;
  }

  /** Which machine the search returns, for all results and limits: the optimal one, the earliest among equals. */
  lemma BestIffChoice(bounds: Bounds, recorded: seq<Id>, profile: map<Id, Profile>, exclude: Option<Id>, m: Id)
    ensures BestOf(bounds, recorded, profile, exclude) == Some(m) <==> IsChoice(bounds, recorded, profile, exclude, m)
  {
    hide BestOf, FirstOfBest;
    if BestOf(bounds, recorded, profile, exclude) == Some(m) {
      BestIsChoice(bounds, recorded, profile, exclude, m);
    }
    if IsChoice(bounds, recorded, profile, exclude, m) {
      var i :| 0 <= i < |recorded| && recorded[i] == m && FirstOfBest(bounds, recorded, profile, exclude, i);
      FirstOfBestIsBest(bounds, recorded, profile, exclude, i);
    }
  }

  function Without(machines: seq<Id>, m: Id): (r: seq<Id>)
    ensures forall x :: x in r <==> x in machines && x != m
  {
    if |machines| == 0 then []
    else if machines[0] == m then Without(machines[1..], m)
    else [machines[0]] + Without(machines[1..], m)
  }

  /** `assignment_dict` keeps its insertion order in `machines`; `active_profiling_result` keeps its own in
      `recorded`.  `requests` are the assignments sent to the node so far. */
  datatype State = State(
    bounds: Bounds, automatic: bool,
    machines: seq<Id>, roles: Roles, record: map<Id, Record>,
    profiling: bool, parallel: bool, ready: bool, t0: real, active: Option<Id>,
    recorded: seq<Id>, profile: map<Id, Profile>, disconnected: seq<Id>,
    requests: seq<(Id, Role)>)
  {
    ghost predicate Valid() {
      && roles.Keys == record.Keys == Elements(machines)
      && profile.Keys == Elements(recorded) && profile.Keys <= roles.Keys
    }

    /** `_get_service_machine_name_from_state_assignment` */
    function Current(): (m: Option<Id>)
      ensures m.Some? ==> m.value in roles && roles[m.value] == Service
    {
      FirstWith(machines, roles, Service)
    }

    /** `_get_list_of_machine_not_profiled` */
    function Unprofiled(): set<Id> {
      var robot := FirstWith(machines, roles, Robot);
      roles.Keys - profile.Keys - (if robot.Some? then {robot.value} else {}) - Elements(disconnected)
    }

    /** `get_a_machine_with_better_profile` */
    function Best(exclude: Option<Id>): (m: Option<Id>)
      ensures m.Some? ==> m.value in recorded && m.value in profile && m != exclude
    {
      BestOf(bounds, recorded, profile, exclude)
    }

    function Put(m: Id, p: Profile): State {
      this.(recorded := if m in profile then recorded else recorded + [m], profile := profile[m := p])
    }

    function Remove(m: Id): State {
      this.(recorded := Without(recorded, m), profile := profile - {m})
    }

    function Assign(m: Id, r: Role): State {
      this.(roles := roles[m := r], requests := requests + [(m, r)])
    }

    /** `_switch_to_machine` on a known machine */
    function SwitchTo(m: Id, now: real): State
      requires m in record && Current().Some? && Current().value in record
    {
      var previous := Current().value;
      if m == previous then this else
      this.(record := record[m := record[m].WasReset(now)][previous := record[previous].WasReset(now)])
      .Assign(previous, Standby).Assign(m, Service)
    }

    /** A switch that happens only when there is a machine to switch to. */
    function SwitchIfAny(m: Option<Id>, now: real): State
      requires Current().Some? && Current().value in record
      requires m.Some? ==> m.value in record
    {
      if m.Some? then SwitchTo(m.value, now) else this
    }

    /** Gives each machine of a list a role, one request at a time. */
    function AssignEach(from: seq<Id>, r: Role): State
      decreases |from|
    {
      if |from| == 0 then this else Assign(from[0], r).AssignEach(from[1..], r)
    }

    /** Parallel profiling before its switches. */
    function OpenedAt(now: real): State {
      this.(active := Current(), parallel := true, ready := false, recorded := [], profile := map[], t0 := now)
    }

    /** `_switch_off_all_but_one` */
    function OnlyService(m: Id): State {
      AssignEach(Without(NonRobotList(machines, roles), m), Standby).Assign(m, Service)
    }
  }

  /** A request or a message, as the node's callbacks receive it. */
  datatype Event = ProfileMessage(p: Profile) | ProfilingRequest | ParallelRequest | GetBest | ParallelBest

  /** What the callbacks rely on; `StepKeepsCanStep` shows that they keep it. */
  ghost predicate CanStep(s: State) {
    s.Valid() && s.Current().Some? && (s.parallel ==> s.active.Some? && s.active.value in s.roles)
  }

  /** A switch changes records and roles, and sends requests, and nothing else. */
  lemma SwitchKeepsTheRest(s: State, m: Id, now: real)
    requires CanStep(s) && m in s.record
    ensures var t := s.SwitchTo(m, now); t == s.(record := t.record, roles := t.roles, requests := t.requests)
  {
    hide FirstWith, Elements, Record.WasReset;
  }

  lemma RemoveKeepsCanStep(s: State, m: Id)
    requires CanStep(s)
    ensures CanStep(s.Remove(m))
  {
    assert s.Remove(m).profile.Keys == Elements(s.Remove(m).recorded);
  }

  lemma PutKeepsCanStep(s: State, m: Id, p: Profile)
    requires CanStep(s) && m in s.roles
    ensures CanStep(s.Put(m, p))
  {
    assert s.Put(m, p).profile.Keys == Elements(s.Put(m, p).recorded);
  }

  /** The end of serial profiling. */
  ghost function Finished(s: State, now: real): State
    requires CanStep(s)
  {
    var done := s.(profiling := false);
    var best := done.Best(None);
    if best.Some? && |best.value| > 0 then done.SwitchTo(best.value, now) else done
  }

  /** `_switch_to_next_unprofiled_machine` */
  ghost predicate MovesOn(s: State, now: real, s': State)
    requires CanStep(s)
  {
    var others := s.Unprofiled() - {s.Current().value};
    if s.Unprofiled() == {} then s' == Finished(s, now)
    else if others == {} then s' == s
    else exists m :: m in others && s' == s.SwitchTo(m, now)
  }

  /** `_handle_timeout` */
  ghost predicate TimeoutStep(s: State, now: real, s': State)
    requires CanStep(s)
  {
    var current := s.Current().value;
    if s.profiling then MovesOn(s.(disconnected := s.disconnected + [current]), now, s')
    else var t := s.Remove(current); s' == t.SwitchIfAny(t.Best(None), now)
  }

  /** The record of the current machine at the timeout check of a profile message. */
  function CheckedRecord(s: State, p: Profile, now: real): Record
    requires s.Current().Some? && s.Current().value in s.record
  {
    var current := s.Current().value;
    if p.identity == current then s.record[current].Updated(p, now) else s.record[current]
  }

  /** The state in which a profile message is judged: only the current machine's record may have changed. */
  ghost function Judged(s: State, p: Profile, now: real): (t: State)
    requires CanStep(s)
    ensures CanStep(t) && t.Current() == s.Current()
  {
    s.(record := s.record[s.Current().value := CheckedRecord(s, p, now)])
  }

  ghost predicate TimesOut(s: State, p: Profile, now: real)
    requires CanStep(s)
  {
    CheckedRecord(s, p, now).TimedOut(now)
  }

  /** `profile_topic_callback` outside parallel profiling */
  ghost predicate SerialMessage(s: State, p: Profile, now: real, s': State)
    requires CanStep(s)
  {
    var current := s.Current().value;
    var t := Judged(s, p, now);
    if TimesOut(s, p, now) then TimeoutStep(t, now, s')
    else if p.identity != current then s' == s
    else if s.profiling then
      if CheckedRecord(s, p, now).HasRunOutOfSkippedProfiles() then MovesOn(t.Put(current, p), now, s') else s' == t
    else if WithinBound(s.bounds, p) || !s.automatic then s' == t
    else s' == t.SwitchIfAny(t.Best(Some(current)), now)
  }

  /** `profile_topic_callback` during parallel profiling */
  ghost predicate ParallelMessage(s: State, p: Profile, now: real, s': State)
    requires CanStep(s)
  {
    if p.identity !in s.record then s' == s else
    var r := s.record[p.identity].Updated(p, now);
    var t := s.(record := s.record[p.identity := r]);
    if !r.HasRunOutOfSkippedProfiles() then s' == t else
    var u := t.Put(p.identity, p);
    s' == if |u.recorded| == |NonRobotList(u.machines, u.roles)| || now - u.t0 > PARALLEL_PROFILING_TIME
          then u.(ready := true) else u
  }

  ghost predicate Next(s: State, e: Event, now: real, s': State)
    requires CanStep(s)
  {
    match e
    case ProfileMessage(p) => if s.parallel then ParallelMessage(s, p, now, s') else SerialMessage(s, p, now, s')
    case ProfilingRequest =>
      if s.profiling || s.parallel then s' == s
      else MovesOn(s.(profiling := true, recorded := [], profile := map[], disconnected := []), now, s')
    case ParallelRequest =>
      if s.profiling || s.parallel then s' == s
      else s' == s.OpenedAt(now).AssignEach(StandbyList(s.machines, s.roles), Service)
    case GetBest => s' == s.SwitchIfAny(s.Best(None), now)
    case ParallelBest =>
      if !(s.ready && s.parallel) then s' == s else
      var t := s.(parallel := false);
      s' == t.OnlyService(if t.Best(None).Some? then t.Best(None).value else s.active.value)
  }
}
