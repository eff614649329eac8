/**
  sgc_policy_scheduler.py, over whole runs: how often timeouts can move the service.

  A timeout strikes the current service off the recorded profiles, so that each switch leaves fewer machines to switch
  to, and nothing but a new profile adds one.
 */
module SchedulerTimeouts {
  import opened Wrappers
  import opened SchedulerState
  import opened SchedulerRuns
  import opened SchedulerRoles

  /** No profiling is going on, and there is one service. */
  ghost predicate Running(s: State) {
    CanStep(s) && Single(s) && !s.profiling && !s.parallel
  }

  /** The recorded machines other than the service. */
  ghost function Spare(s: State): nat
    requires s.Current().Some?
  {
    |s.profile.Keys - {s.Current().value}|
  }

  ghost predicate TimeoutSwitch(s: State, c: Call, s': State)
    requires CanStep(s)
  {
    c.e.ProfileMessage? && TimesOut(s, c.e.p, c.now) && s'.Current() != s.Current()
  }

  lemma SpareSwitch(s: State, best: Id, now: real)
    requires Running(s) && best in s.profile && best != s.Current().value
    ensures var t := s.SwitchTo(best, now);
            && Running(t) && t.Current() == Some(best)
            && Spare(t) == |s.profile| - 1
            && Spare(s) == |s.profile| - if s.Current().value in s.profile then 1 else 0
  {
    assert best in s.roles && best in s.record;
    SwitchStaysSingle(s, best, now);
    SwitchKeepsTheRest(s, best, now);
    hide CanStep, Single, State.SwitchTo, FirstWith;
    OneLess(s.profile.Keys, s.Current().value);
    OneLess(s.profile.Keys, best);
  }

  /** A switch to the best machine leaves no more spare machines; fewer, if the current one was not recorded. */
  lemma RunningSwitch(s: State, exclude: Option<Id>, now: real)
    requires Running(s)
    ensures var t := s.SwitchIfAny(s.Best(exclude), now);
            && Running(t) && Spare(t) <= Spare(s)
            && (s.Current().value !in s.profile && t.Current() != s.Current() ==> Spare(t) < Spare(s))
  {
    var best := s.Best(exclude);
    assert best.Some? ==> best.value in s.roles;
    hide CanStep, Single, BestOf, FirstWith, Elements;
    if best.Some? && best != s.Current() {
      SpareSwitch(s, best.value, now);
      hide State.SwitchTo;
    }
  }

  lemma RemoveCurrent(s: State)
    requires Running(s)
    ensures var u := s.Remove(s.Current().value);
            Running(u) && u.Current() == s.Current() && Spare(u) == Spare(s) && u.Current().value !in u.profile
  {
    RemoveKeepsCanStep(s, s.Current().value);
    hide CanStep, FirstWith, Having, Elements, Without;
    assert s.Remove(s.Current().value).profile.Keys - {s.Current().value} == s.profile.Keys - {s.Current().value};
  }

  lemma RunningTimeout(s: State, now: real, s': State)
    requires Running(s) && TimeoutStep(s, now, s')
    ensures Running(s') && Spare(s') <= Spare(s)
    ensures s'.Current() != s.Current() ==> Spare(s') < Spare(s)
  {
    var u := s.Remove(s.Current().value);
    RemoveCurrent(s);
    hide Spare, State.Current, State.Remove, State.SwitchIfAny, BestOf, MovesOn, CanStep, Single;
    RunningSwitch(u, None, now);
  }

  lemma JudgedRunning(s: State, p: Profile, now: real)
    requires Running(s)
    ensures Running(Judged(s, p, now)) && Spare(Judged(s, p, now)) == Spare(s)
    ensures Judged(s, p, now).Current() == s.Current()
  {
  }

  lemma RunningMessage(s: State, p: Profile, now: real, s': State)
    requires Running(s) && SerialMessage(s, p, now, s')
    ensures Running(s') && Spare(s') <= Spare(s)
    ensures TimesOut(s, p, now) && s'.Current() != s.Current() ==> Spare(s') < Spare(s)
  {
    var t := Judged(s, p, now);
    JudgedRunning(s, p, now);
    hide Spare, State.Current, State.SwitchIfAny, BestOf, TimeoutStep, WithinBound, TimesOut, CheckedRecord, Judged;
    hide CanStep, Single;
    if TimesOut(s, p, now) {
      RunningTimeout(t, now, s');
    } else if p.identity == s.Current().value && !WithinBound(s.bounds, p) && s.automatic {
      RunningSwitch(t, s.Current(), now);
    }
  }

  /** While no profiling starts, the spare machines never grow, and every timeout that moves the service takes one. */
  lemma RunningStep(s: State, c: Call, s': State)
    requires Running(s) && Next(s, c.e, c.now, s') && !c.e.ProfilingRequest? && !c.e.ParallelRequest?
    ensures Running(s') && Spare(s') <= Spare(s)
    ensures TimeoutSwitch(s, c, s') ==> Spare(s') < Spare(s)
  {
    hide CanStep, Single, Spare, BestOf, State.SwitchIfAny, State.Current, SerialMessage, TimesOut;
    match c.e
    case GetBest => RunningSwitch(s, None, c.now);
    case ParallelBest =>
    case ProfileMessage(p) => RunningMessage(s, p, c.now, s');
  }

  ghost function TimeoutSwitches(t: Trace): nat {
    match t
    case Begin(_) => 0
    case Then(before, call, s) =>
      TimeoutSwitches(before) + if CanStep(before.s) && TimeoutSwitch(before.s, call, s) then 1 else 0
  }

  ghost predicate NoNewProfiling(t: Trace) {
    t.Then? ==> NoNewProfiling(t.before) && !t.call.e.ProfilingRequest? && !t.call.e.ParallelRequest?
  }

  /** Without new profiling, timeouts switch the service at most as often as there were spare machines. */
  lemma {:induction false} TimeoutsAreBounded(t: Trace)
    requires Run(t) && Running(t.First()) && NoNewProfiling(t)
    ensures Running(t.s)
    ensures TimeoutSwitches(t) + Spare(t.s) <= Spare(t.First())
  {
    if t.Then? {
      hide CanStep, Single, Next, TimeoutSwitch, Spare;
      TimeoutsAreBounded(t.before);
      RunningStep(t.before.s, t.call, t.s);
    }
  }
}
