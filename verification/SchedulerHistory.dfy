/**
  sgc_policy_scheduler.py, over whole runs: when a machine times out and when its profiles count, told from what
  happened to it, and which machine serves after each callback.
 */
module SchedulerHistory {
  import opened Wrappers
  import opened SchedulerState
  import opened SchedulerRuns
  import opened SchedulerRoles

  /** What matters to an `SGC_Service`: a switch to or from its machine, or a profile of it. */
  datatype Happening = Switched(at: real) | Profiled(p: Profile, at: real)

  /** A profile that shows the machine connected. */
  predicate Heard(h: Happening) {
    h.Profiled? && h.p.medianLatency != -1.0
  }

  /** The time of the last switch; `start` if there was none. */
  function SwitchedAt(start: real, hs: seq<Happening>): real {
    if |hs| == 0 then start
    else if hs[|hs| - 1].Switched? then hs[|hs| - 1].at
    else SwitchedAt(start, hs[..|hs| - 1])
  }

  /** The time of the last connected profile since the last switch; `before` tells it of the time before. */
  function HeardAt(before: Option<real>, hs: seq<Happening>): Option<real> {
    if |hs| == 0 then before
    else if hs[|hs| - 1].Switched? then None
    else if Heard(hs[|hs| - 1]) then Some(hs[|hs| - 1].at)
    else HeardAt(before, hs[..|hs| - 1])
  }

  /** How many connected profiles came since the last switch. */
  function HeardCount(before: nat, hs: seq<Happening>): nat {
    if |hs| == 0 then before
    else if hs[|hs| - 1].Switched? then 0
    else HeardCount(before, hs[..|hs| - 1]) + if Heard(hs[|hs| - 1]) then 1 else 0
  }

  function Following(r: Record, h: Happening): Record {
    match h
    case Switched(at) => r.WasReset(at)
    case Profiled(p, at) => r.Updated(p, at)
  }

  function Replayed(r: Record, hs: seq<Happening>): Record {
    if |hs| == 0 then r else Following(Replayed(r, hs[..|hs| - 1]), hs[|hs| - 1])
  }

  lemma {:induction false} ReplayedTells(r: Record, hs: seq<Happening>)
    ensures Replayed(r, hs).lastSwitched == SwitchedAt(r.lastSwitched, hs)
    ensures Replayed(r, hs).lastConnected == HeardAt(r.lastConnected, hs)
    ensures Replayed(r, hs).profiles == HeardCount(r.profiles, hs)
  {
    if |hs| > 0 {
      ReplayedTells(r, hs[..|hs| - 1]);
    }
  }

  /** By its history a machine has timed out: ten seconds have passed since the last switch and nothing was heard of it
      since, or more than ten since it was last heard of. */
  predicate Silent(r: Record, hs: seq<Happening>, now: real) {
    var heard := HeardAt(r.lastConnected, hs);
    if heard.None? then now - SwitchedAt(r.lastSwitched, hs) >= 10.0 else now - heard.value > 10.0
  }

  lemma TimesOutWhenSilent(r: Record, hs: seq<Happening>, now: real)
    ensures Replayed(r, hs).TimedOut(now) <==> Silent(r, hs, now)
    ensures Replayed(r, hs).HasRunOutOfSkippedProfiles() <==> HeardCount(r.profiles, hs) >= 6
  {
    ReplayedTells(r, hs);
  }

  // ----- Histories in runs -----

  /** What a callback makes happen to a machine: its profile is taken note of during parallel profiling, and otherwise
      if it is the service; and a switch, told from the requests it sends, concerns both its machines. */
  ghost function Happens(s: State, c: Call, s': State, m: Id): seq<Happening> {
    (if c.e.ProfileMessage? && c.e.p.identity == m && (s.parallel || s.Current() == Some(m))
     then [Profiled(c.e.p, c.now)] else []) +
    if !c.e.ParallelRequest? && !c.e.ParallelBest? && s.requests <= s'.requests &&
       Concerns(s'.requests[|s.requests|..], m)
    then [Switched(c.now)] else []
  }

  ghost predicate Concerns(requests: seq<(Id, Role)>, m: Id) {
    exists i :: 0 <= i < |requests| && requests[i].0 == m
  }

  ghost function HistoryOf(t: Trace, m: Id): seq<Happening> {
    if t.Begin? then [] else HistoryOf(t.before, m) + Happens(t.before.s, t.call, t.s, m)
  }

  /** The records of exactly the machines that requests were sent about were reset. */
  ghost predicate Resets(s: State, s': State, now: real, m: Id) {
    && s.requests <= s'.requests && m in s.record && m in s'.record
    && s'.record[m] == if Concerns(s'.requests[|s.requests|..], m) then s.record[m].WasReset(now) else s.record[m]
  }

  lemma NothingResets(s: State, s': State, now: real, m: Id)
    requires m in s.record && s'.record == s.record && s'.requests == s.requests
    ensures Resets(s, s', now, m)
  {
    assert s'.requests[|s.requests|..] == [];
  }

  lemma SwitchResets(s: State, n: Id, now: real, m: Id)
    requires CanStep(s) && n in s.record && m in s.record
    ensures Resets(s, s.SwitchTo(n, now), now, m)
  {
    var t, previous := s.SwitchTo(n, now), s.Current().value;
    if n != previous {
      var more := [(previous, Standby), (n, Service)];
      assert t.requests == s.requests + more;
      assert t.requests[|s.requests|..] == more;
      assert more[0].0 == previous && more[1].0 == n;
    } else {
      NothingResets(s, t, now, m);
    }
    hide FirstWith;
  }

  lemma SwitchIfAnyResets(s: State, n: Option<Id>, now: real, m: Id)
    requires CanStep(s) && m in s.record && (n.Some? ==> n.value in s.record)
    ensures Resets(s, s.SwitchIfAny(n, now), now, m)
  {
    hide FirstWith, State.SwitchTo, Resets;
    if n.Some? {
      SwitchResets(s, n.value, now, m);
    } else {
      NothingResets(s, s, now, m);
    }
  }

  /** Flags, lists and results do not matter to a switch. */
  lemma ResetsElsewhere(s: State, t: State, s': State, now: real, m: Id)
    requires Resets(t, s', now, m) && t.record == s.record && t.requests == s.requests
    ensures Resets(s, s', now, m)
  {
  }

  lemma MovesOnResets(s: State, now: real, s': State, m: Id)
    requires CanStep(s) && m in s.record && MovesOn(s, now, s')
    ensures Resets(s, s', now, m)
  {
    hide FirstWith, BestOf, State.SwitchTo, Resets, State.Unprofiled;
    var others := s.Unprofiled() - {s.Current().value};
    if s.Unprofiled() == {} {
      FinishedResets(s, now, m);
    } else if others == {} {
      NothingResets(s, s, now, m);
    } else {
      assert others <= s.record.Keys by { UnprofiledAreKnown(s); }
      var n :| n in others && s' == s.SwitchTo(n, now);
      SwitchResets(s, n, now, m);
    }
  }

  lemma UnprofiledAreKnown(s: State)
    requires CanStep(s)
    ensures s.Unprofiled() <= s.record.Keys
  {
  }

  lemma FinishedResets(s: State, now: real, m: Id)
    requires CanStep(s) && m in s.record
    ensures Resets(s, Finished(s, now), now, m)
  {
    hide FirstWith, BestOf, State.SwitchTo, Resets;
    var done := s.(profiling := false);
    var best := done.Best(None);
    if best.Some? && |best.value| > 0 {
      SwitchResets(done, best.value, now, m);
      ResetsElsewhere(s, done, Finished(s, now), now, m);
    } else {
      NothingResets(s, done, now, m);
    }
  }

  lemma TimeoutResets(s: State, now: real, s': State, m: Id)
    requires CanStep(s) && m in s.record && TimeoutStep(s, now, s')
    ensures Resets(s, s', now, m)
  {
    hide FirstWith, BestOf, State.SwitchIfAny, Resets, MovesOn;
    var current := s.Current().value;
    if s.profiling {
      var t := s.(disconnected := s.disconnected + [current]);
      OtherListsCanStep(s, s.profiling, t.disconnected);
      MovesOnResets(t, now, s', m);
      ResetsElsewhere(s, t, s', now, m);
    } else {
      var t := s.Remove(current);
      RemoveKeepsCanStep(s, current);
      SwitchIfAnyResets(t, t.Best(None), now, m);
      ResetsElsewhere(s, t, s', now, m);
    }
  }

  lemma MessageResets(s: State, p: Profile, now: real, s': State, m: Id)
    requires CanStep(s) && !s.parallel && m in s.record && SerialMessage(s, p, now, s')
    ensures Resets(Judged(s, p, now), s', now, m)
  {
    hide FirstWith, BestOf, State.SwitchIfAny, Resets, MovesOn, TimeoutStep, WithinBound, CheckedRecord, TimesOut;
    var current, t := s.Current().value, Judged(s, p, now);
    if TimesOut(s, p, now) {
      TimeoutResets(t, now, s', m);
    } else if p.identity != current {
      JudgedWithout(s, p, now);
      NothingResets(t, s', now, m);
    } else if s.profiling {
      if CheckedRecord(s, p, now).HasRunOutOfSkippedProfiles() {
        PutKeepsCanStep(t, current, p);
        MovesOnResets(t.Put(current, p), now, s', m);
        ResetsElsewhere(t, t.Put(current, p), s', now, m);
      } else {
        NothingResets(t, s', now, m);
      }
    } else if WithinBound(s.bounds, p) || !s.automatic {
      NothingResets(t, s', now, m);
    } else {
      SwitchIfAnyResets(t, t.Best(Some(current)), now, m);
    }
  }

  lemma JudgedWithout(s: State, p: Profile, now: real)
    requires CanStep(s) && p.identity != s.Current().value
    ensures Judged(s, p, now).record == s.record && Judged(s, p, now).requests == s.requests
  {
  }

  lemma RequestsReset(s: State, c: Call, s': State, m: Id)
    requires CanStep(s) && m in s.record && Next(s, c.e, c.now, s') && (c.e.ProfilingRequest? || c.e.GetBest?)
    ensures Resets(s, s', c.now, m)
  {
    hide FirstWith, BestOf, State.SwitchIfAny, Resets, MovesOn;
    if c.e.GetBest? {
      SwitchIfAnyResets(s, s.Best(None), c.now, m);
    } else if s.profiling || s.parallel {
      NothingResets(s, s', c.now, m);
    } else {
      BegunCanStep(s);
      MovesOnResets(Begun(s), c.now, s', m);
      ResetsElsewhere(s, Begun(s), s', c.now, m);
    }
  }

  lemma {:induction false} AssignEachKeepsRecord(s: State, from: seq<Id>, r: Role)
    ensures s.AssignEach(from, r).record == s.record
    decreases |from|
  {
    if |from| > 0 {
      AssignEachKeepsRecord(s.Assign(from[0], r), from[1..], r);
    }
  }

  lemma ParallelKeepsRecord(s: State, c: Call, s': State)
    requires CanStep(s) && Next(s, c.e, c.now, s') && (c.e.ParallelRequest? || c.e.ParallelBest?)
    ensures s'.record == s.record
  {
    hide FirstWith, BestOf, State.AssignEach, StandbyList, NonRobotList, Without;
    if c.e.ParallelRequest? {
      AssignEachKeepsRecord(s.OpenedAt(c.now), StandbyList(s.machines, s.roles), Service);
    } else if s.ready && s.parallel {
      var t := s.(parallel := false);
      var m := if t.Best(None).Some? then t.Best(None).value else s.active.value;
      AssignEachKeepsRecord(t, Without(NonRobotList(t.machines, t.roles), m), Standby);
    }
  }

  /** One callback changes the record of a machine by what it makes happen to it. */
  lemma StepFollows(s: State, c: Call, s': State, m: Id)
    requires CanStep(s) && m in s.record && Next(s, c.e, c.now, s')
    ensures m in s'.record && s'.record[m] == Replayed(s.record[m], Happens(s, c, s', m))
  {
    match c.e
    case ProfileMessage(p) =>
      if s.parallel {
        ParallelFollows(s, c, s', m);
      } else {
        SerialFollows(s, c, s', m);
      }
    case ProfilingRequest =>
      RequestsReset(s, c, s', m);
      SwitchFollows(s, c, s', m);
    case GetBest =>
      RequestsReset(s, c, s', m);
      SwitchFollows(s, c, s', m);
    case ParallelRequest =>
      ParallelKeepsRecord(s, c, s');
      assert Happens(s, c, s', m) == [];
      hide Next;
    case ParallelBest =>
      ParallelKeepsRecord(s, c, s');
      assert Happens(s, c, s', m) == [];
      hide Next;
  }

  lemma ReplayedOne(r: Record, h: Happening)
    ensures Replayed(r, [h]) == Following(r, h)
  {
    assert [h][..0] == [];
  }

  lemma ReplayedTwo(r: Record, g: Happening, h: Happening)
    ensures Replayed(r, [g, h]) == Following(Following(r, g), h)
  {
    assert [g, h][..1] == [g];
    ReplayedOne(r, g);
  }

  lemma SwitchFollows(s: State, c: Call, s': State, m: Id)
    requires Resets(s, s', c.now, m) && (c.e.ProfilingRequest? || c.e.GetBest?)
    ensures s'.record[m] == Replayed(s.record[m], Happens(s, c, s', m))
  {
    ReplayedOne(s.record[m], Switched(c.now));
  }

  lemma SerialFollows(s: State, c: Call, s': State, m: Id)
    requires CanStep(s) && !s.parallel && m in s.record && c.e.ProfileMessage? && SerialMessage(s, c.e.p, c.now, s')
    ensures m in s'.record && s'.record[m] == Replayed(s.record[m], Happens(s, c, s', m))
  {
    var t, noted, switched := Judged(s, c.e.p, c.now), Profiled(c.e.p, c.now), Switched(c.now);
    MessageResets(s, c.e.p, c.now, s', m);
    assert t.requests == s.requests;
    assert t.record[m] == if c.e.p.identity == m && s.Current() == Some(m) then s.record[m].Updated(c.e.p, c.now)
                          else s.record[m];
    hide SerialMessage, Judged, FirstWith, CanStep, Record.Updated, Record.WasReset, Concerns;
    ReplayedOne(s.record[m], noted);
    ReplayedOne(s.record[m], switched);
    ReplayedTwo(s.record[m], noted, switched);
    assert [noted] + [switched] == [noted, switched];
    assert [noted] + [] == [noted];
    assert [] + [switched] == [switched];
  }

  lemma ParallelMessageKeeps(s: State, p: Profile, now: real, s': State)
    requires CanStep(s) && ParallelMessage(s, p, now, s')
    ensures s'.requests == s.requests && s'.t0 == s.t0 && s'.active == s.active
  {
    hide CanStep, FirstWith, NonRobotList, Record.Updated, Record.HasRunOutOfSkippedProfiles;
  }

  lemma ParallelMessageNotes(s: State, p: Profile, now: real, s': State)
    requires CanStep(s) && ParallelMessage(s, p, now, s')
    ensures s'.record == if p.identity in s.record then s.record[p.identity := s.record[p.identity].Updated(p, now)]
                         else s.record
  {
    hide CanStep, FirstWith, NonRobotList, Record.Updated, Record.HasRunOutOfSkippedProfiles;
  }

  lemma ParallelFollows(s: State, c: Call, s': State, m: Id)
    requires CanStep(s) && s.parallel && m in s.record && c.e.ProfileMessage? && ParallelMessage(s, c.e.p, c.now, s')
    ensures m in s'.record && s'.record[m] == Replayed(s.record[m], Happens(s, c, s', m))
  {
    ParallelMessageNotes(s, c.e.p, c.now, s');
    ParallelMessageKeeps(s, c.e.p, c.now, s');
    hide CanStep, ParallelMessage, Record.Updated;
    assert s'.requests[|s.requests|..] == [];
    var noted := Profiled(c.e.p, c.now);
    ReplayedOne(s.record[m], noted);
    assert [noted] + [] == [noted];
    assert Happens(s, c, s', m) == if c.e.p.identity == m then [noted] else [];
  }

  lemma {:induction false} ReplayedOn(r: Record, hs: seq<Happening>, more: seq<Happening>)
    ensures Replayed(r, hs + more) == Replayed(Replayed(r, hs), more)
  {
    if |more| == 0 {
      assert hs + more == hs;
    } else {
      ReplayedOn(r, hs, more[..|more| - 1]);
      assert (hs + more)[..|hs + more| - 1] == hs + more[..|more| - 1];
    }
  }

  /** In every run a machine's record is what its history leaves of the first one. */
  lemma {:induction false} RecordIsHistory(t: Trace, m: Id)
    requires Run(t) && m in t.First().record
    ensures m in t.s.record && t.s.record[m] == Replayed(t.First().record[m], HistoryOf(t, m))
  {
    if t.Then? {
      RecordIsHistory(t.before, m);
      StepFollows(t.before.s, t.call, t.s, m);
      ReplayedOn(t.First().record[m], HistoryOf(t.before, m), Happens(t.before.s, t.call, t.s, m));
      hide Next, CanStep, Happens, Replayed;
    }
  }

  // ----- What a profile message leads to -----

  /** A profile is recorded: a machine that had none comes after all that have. */
  predicate Recorded(s: State, m: Id, p: Profile, s': State) {
    s'.profile == s.profile[m := p] && s'.recorded == if m in s.profile then s.recorded else s.recorded + [m]
  }

  predicate SameResults(s: State, s': State) {
    s'.profile == s.profile && s'.recorded == s.recorded
  }

  /** A profile is struck off, and the others keep their order. */
  predicate StruckOff(s: State, m: Id, s': State) {
    s'.profile == s.profile - {m} && s'.recorded == Without(s.recorded, m)
  }

  /** A machine's history up to and including a profile message. */
  ghost function HistoryWith(t: Trace, m: Id, p: Profile, now: real): seq<Happening> {
    HistoryOf(t, m) + if p.identity == m then [Profiled(p, now)] else []
  }

  lemma CheckedIsHistory(t: Trace, p: Profile, now: real)
    requires Run(t) && CanStep(t.s) && t.s.Current().value in t.First().record
    ensures var c := t.s.Current().value;
            CheckedRecord(t.s, p, now) == Replayed(t.First().record[c], HistoryWith(t, c, p, now))
  {
    var c := t.s.Current().value;
    RecordIsHistory(t, c);
    ReplayedOne(t.s.record[c], Profiled(p, now));
    ReplayedOn(t.First().record[c], HistoryOf(t, c), [Profiled(p, now)]);
    assert HistoryOf(t, c) + [] == HistoryOf(t, c);
    hide Run, CanStep, Replayed, HistoryOf;
  }

  /** In every run, when a profile message of any machine arrives outside parallel profiling: while profiling the
      service is counted as disconnected exactly if it is silent by its history, and its own message is recorded exactly
      if it is not silent and this is at least its sixth connected profile since the last switch; while running its
      profile is struck off exactly if it is silent. */
  lemma SilentServiceTimesOut(t: Trace, p: Profile, now: real, s': State)
    requires Run(t) && CanStep(t.s) && !t.s.parallel && Next(t.s, ProfileMessage(p), now, s')
    requires t.s.Current().value in t.First().record
    ensures var s, c := t.s, t.s.Current().value;
            var r, hs := t.First().record[c], HistoryWith(t, c, p, now);
            if Silent(r, hs, now) then
              if s.profiling then s'.disconnected == s.disconnected + [c] && SameResults(s, s')
              else StruckOff(s, c, s') && s'.disconnected == s.disconnected
            else && s'.disconnected == s.disconnected
                 && if s.profiling && p.identity == c && HeardCount(r.profiles, hs) >= 6
                    then Recorded(s, c, p, s') else SameResults(s, s')
  {
    var s, c := t.s, t.s.Current().value;
    CheckedIsHistory(t, p, now);
    TimesOutWhenSilent(t.First().record[c], HistoryWith(t, c, p, now), now);
    assert s.Current().Some?;
    hide Run, HistoryWith, Replayed, Silent, HeardCount, Record.TimedOut, Record.HasRunOutOfSkippedProfiles;
    MessageLists(s, p, now, s');
  }

  lemma TimeoutLists(s: State, now: real, s': State)
    requires CanStep(s) && TimeoutStep(s, now, s')
    ensures var c := s.Current().value;
            if s.profiling then s'.disconnected == s.disconnected + [c] && SameResults(s, s')
            else StruckOff(s, c, s') && s'.disconnected == s.disconnected
    ensures s'.t0 == s.t0 && s'.active == s.active
  {
    hide FirstWith, BestOf;
    var c := s.Current().value;
    if s.profiling {
      OtherListsCanStep(s, s.profiling, s.disconnected + [c]);
      MovesOnLists(s.(disconnected := s.disconnected + [c]), now, s');
      hide MovesOn;
    } else {
      RemoveKeepsCanStep(s, c);
      SwitchLists(s.Remove(c), s.Remove(c).Best(None), now);
      hide State.SwitchIfAny;
    }
  }

  /** What becomes of the results. */
  lemma MessageLists(s: State, p: Profile, now: real, s': State)
    requires CanStep(s) && !s.parallel && SerialMessage(s, p, now, s')
    ensures var c := s.Current().value;
            if TimesOut(s, p, now) then
              if s.profiling then s'.disconnected == s.disconnected + [c] && SameResults(s, s')
              else StruckOff(s, c, s') && s'.disconnected == s.disconnected
            else && s'.disconnected == s.disconnected
                 && if s.profiling && p.identity == c && CheckedRecord(s, p, now).HasRunOutOfSkippedProfiles()
                    then Recorded(s, c, p, s') else SameResults(s, s')
    ensures s'.t0 == s.t0 && s'.active == s.active
  {
    var c, t := s.Current().value, Judged(s, p, now);
    assert t.disconnected == s.disconnected && SameResults(s, t) && t.profiling == s.profiling;
    hide FirstWith, BestOf, CheckedRecord, WithinBound, Record.HasRunOutOfSkippedProfiles, Judged, TimesOut;
    if TimesOut(s, p, now) {
      TimeoutLists(t, now, s');
      hide TimeoutStep;
    } else if p.identity == c {
      if s.profiling {
        if CheckedRecord(s, p, now).HasRunOutOfSkippedProfiles() {
          PutKeepsCanStep(t, c, p);
          MovesOnLists(t.Put(c, p), now, s');
        }
      } else {
        SwitchLists(t, t.Best(Some(c)), now);
      }
    }
  }

  /** What switches and the end of profiling leave alone. */
  predicate SameButRoles(s: State, s': State) {
    && s'.disconnected == s.disconnected && s'.profile == s.profile && s'.recorded == s.recorded
    && s'.t0 == s.t0 && s'.active == s.active && s'.parallel == s.parallel && s'.ready == s.ready
  }

  lemma SwitchToSame(s: State, n: Id, now: real)
    requires CanStep(s) && n in s.record
    ensures SameButRoles(s, s.SwitchTo(n, now))
  {
    SwitchKeepsTheRest(s, n, now);
    hide FirstWith, State.SwitchTo, CanStep;
  }

  lemma SwitchLists(s: State, n: Option<Id>, now: real)
    requires CanStep(s) && (n.Some? ==> n.value in s.record)
    ensures SameButRoles(s, s.SwitchIfAny(n, now))
  {
    assert SameButRoles(s, s);
    hide FirstWith, State.SwitchTo, SameButRoles;
    if n.Some? {
      SwitchToSame(s, n.value, now);
    }
  }

  lemma FinishedLists(s: State, now: real)
    requires CanStep(s)
    ensures SameButRoles(s, Finished(s, now))
  {
    hide FirstWith, BestOf, State.SwitchTo;
    var done := s.(profiling := false);
    var best := done.Best(None);
    if best.Some? && |best.value| > 0 {
      SwitchToSame(done, best.value, now);
    }
  }

  lemma MovesOnLists(s: State, now: real, s': State)
    requires CanStep(s) && MovesOn(s, now, s')
    ensures SameButRoles(s, s')
  {
    assert SameButRoles(s, s);
    hide FirstWith, BestOf, State.SwitchTo, State.Unprofiled, SameButRoles, Finished;
    var others := s.Unprofiled() - {s.Current().value};
    assert others <= s.record.Keys by { UnprofiledAreKnown(s); }
    if s.Unprofiled() == {} {
      FinishedLists(s, now);
    } else if others != {} {
      var n :| n in others && s' == s.SwitchTo(n, now);
      SwitchToSame(s, n, now);
    }
  }

  // ----- Parallel profiling -----

  lemma ParallelMessageRecords(s: State, p: Profile, now: real, s': State)
    requires CanStep(s) && ParallelMessage(s, p, now, s') && p.identity in s.record
    ensures if s.record[p.identity].Updated(p, now).HasRunOutOfSkippedProfiles() then
              && Recorded(s, p.identity, p, s')
              && (s'.ready <==> s.ready || |s'.recorded| == |NonRobotList(s.machines, s.roles)| || now - s.t0 > 0.05)
            else SameResults(s, s') && s'.ready == s.ready
  {
    hide CanStep, FirstWith, NonRobotList, Record.Updated, Record.HasRunOutOfSkippedProfiles;
  }

  /** In every run a profile message during parallel profiling is recorded exactly if it is at least the machine's sixth
      connected profile since the last switch; and then the results are ready once every machine but robots is recorded
      or more than 0.05 s have passed since parallel profiling began. */
  lemma ParallelRecords(t: Trace, p: Profile, now: real, s': State)
    requires Run(t) && CanStep(t.s) && t.s.parallel && Next(t.s, ProfileMessage(p), now, s')
    requires p.identity in t.First().record
    ensures var s, m := t.s, p.identity;
            if HeardCount(t.First().record[m].profiles, HistoryWith(t, m, p, now)) >= 6 then
              && Recorded(s, m, p, s')
              && (s'.ready <==> s.ready || |s'.recorded| == |NonRobotList(s.machines, s.roles)| || now - s.t0 > 0.05)
            else SameResults(s, s') && s'.ready == s.ready
  {
    var m := p.identity;
    RecordIsHistory(t, m);
    ReplayedOne(t.s.record[m], Profiled(p, now));
    ReplayedOn(t.First().record[m], HistoryOf(t, m), [Profiled(p, now)]);
    TimesOutWhenSilent(t.First().record[m], HistoryWith(t, m, p, now), now);
    assert ParallelMessage(t.s, p, now, s');
    var r := t.s.record[m].Updated(p, now);
    hide Run, CanStep, Replayed, HistoryOf, HeardCount, ParallelMessage, Record.Updated, Recorded, SameResults;
    hide Record.HasRunOutOfSkippedProfiles;
    ParallelMessageRecords(t.s, p, now, s');
  }

  /** The call begins parallel profiling. */
  ghost predicate Opens(s: State, c: Call) {
    c.e.ParallelRequest? && !s.profiling && !s.parallel
  }

  /** When parallel profiling last began, and which machine was the service then. */
  ghost function OpenedAt(t: Trace): (real, Option<Id>) {
    if t.Begin? then (t.s.t0, t.s.active)
    else if Opens(t.before.s, t.call) then (t.call.now, t.before.s.Current())
    else OpenedAt(t.before)
  }

  lemma OpeningStep(s: State, c: Call, s': State)
    requires CanStep(s) && Next(s, c.e, c.now, s')
    ensures if Opens(s, c) then s'.t0 == c.now && s'.active == s.Current() else s'.t0 == s.t0 && s'.active == s.active
  {
    match c.e
    case ParallelRequest => ParallelOpening(s, c, s');
    case ParallelBest => ParallelOpening(s, c, s');
    case ProfilingRequest =>
      if !s.profiling && !s.parallel {
        BegunCanStep(s);
        MovesOnLists(Begun(s), c.now, s');
      }
      hide FirstWith, MovesOn;
    case GetBest =>
      SwitchLists(s, s.Best(None), c.now);
      hide FirstWith, State.SwitchIfAny;
    case ProfileMessage(p) =>
      if s.parallel {
        ParallelMessageKeeps(s, p, c.now, s');
      } else {
        MessageLists(s, p, c.now, s');
      }
      hide FirstWith, CanStep, SerialMessage, ParallelMessage, TimesOut, CheckedRecord;
  }

  lemma ParallelOpening(s: State, c: Call, s': State)
    requires CanStep(s) && Next(s, c.e, c.now, s') && (c.e.ParallelRequest? || c.e.ParallelBest?)
    ensures if Opens(s, c) then s'.t0 == c.now && s'.active == s.Current() else s'.t0 == s.t0 && s'.active == s.active
  {
    hide FirstWith, State.AssignEach, StandbyList, NonRobotList, Without, BestOf;
    if c.e.ParallelRequest? {
      if Opens(s, c) {
        AssignEachKeepsTimes(s.OpenedAt(c.now), StandbyList(s.machines, s.roles), Service);
      }
    } else if s.ready && s.parallel {
      var t := s.(parallel := false);
      var m := if t.Best(None).Some? then t.Best(None).value else s.active.value;
      AssignEachKeepsTimes(t, Without(NonRobotList(t.machines, t.roles), m), Standby);
    }
  }

  lemma {:induction false} AssignEachKeepsTimes(s: State, from: seq<Id>, r: Role)
    ensures s.AssignEach(from, r).t0 == s.t0 && s.AssignEach(from, r).active == s.active
    decreases |from|
  {
    if |from| > 0 {
      AssignEachKeepsTimes(s.Assign(from[0], r), from[1..], r);
    }
  }

  /** In every run the start of parallel profiling and the service of that time are remembered until the next one. */
  lemma {:induction false} OpeningIsRemembered(t: Trace)
    requires Run(t)
    ensures t.s.t0 == OpenedAt(t).0 && t.s.active == OpenedAt(t).1
  {
    if t.Then? {
      OpeningIsRemembered(t.before);
      OpeningStep(t.before.s, t.call, t.s);
      hide Next, CanStep, Opens;
    }
  }

  /** When the results of parallel profiling are ready and no connected machine is among them, asking for the best one
      makes the machine the only service again that was the service when parallel profiling began. */
  lemma FallsBackToEarlierService(t: Trace, now: real, s': State)
    requires Run(t) && CanStep(t.s) && t.s.parallel && t.s.ready && Next(t.s, ParallelBest, now, s')
    requires forall m :: m in t.s.recorded ==> t.s.profile[m].medianLatency == -1.0
    ensures OpenedAt(t).1.Some? && Having(s'.roles, Service) == {OpenedAt(t).1.value}
    ensures s'.Current() == OpenedAt(t).1 && !s'.parallel
  {
    OpeningIsRemembered(t);
    var u := t.s.(parallel := false);
    BestIsLeast(u.bounds, u.recorded, u.profile, None);
    assert u.Best(None).None?;
    hide FirstWith, State.OnlyService, BestOf, Run;
    OnlyServiceServes(u, t.s.active.value);
  }

  /** The results of parallel profiling decide only when they are ready: before that asking for the best one does
      nothing, and then the machine chosen from them, if there is one, becomes the only service. */
  lemma BestOfParallelServes(s: State, now: real, s': State, m: Id)
    requires CanStep(s) && Next(s, ParallelBest, now, s')
    ensures !(s.parallel && s.ready) ==> s' == s
    ensures s.parallel && s.ready && IsChoice(s.bounds, s.recorded, s.profile, None, m) ==>
              Having(s'.roles, Service) == {m} && s'.Current() == Some(m) && !s'.parallel
  {
    hide IsChoice, BestOf, FirstWith, State.OnlyService;
    var u := s.(parallel := false);
    BestIffChoice(u.bounds, u.recorded, u.profile, None, m);
    if s.parallel && s.ready && u.Best(None) == Some(m) {
      BestIsKnown(s, None);
      OnlyServiceServes(u, m);
    }
  }

  lemma OnlyServiceServes(s: State, m: Id)
    requires CanStep(s) && m in s.roles
    ensures var t := s.OnlyService(m);
            Having(t.roles, Service) == {m} && t.Current() == Some(m) && t.parallel == s.parallel
  {
    OnlyServiceEffect(s, m);
    hide FirstWith, State.OnlyService;
    OnlyOne(s.OnlyService(m), Service, m);
  }

  /** Parallel profiling starts from nothing, at this moment, with every standby machine serving beside the service; a
      request while any profiling is on does nothing. */
  lemma ParallelRequestOpens(s: State, now: real, s': State)
    requires CanStep(s) && Next(s, ParallelRequest, now, s')
    ensures s.profiling || s.parallel ==> s' == s
    ensures !s.profiling && !s.parallel ==>
              && s'.parallel && !s'.ready && s'.recorded == [] && s'.profile == map[]
              && s'.t0 == now && s'.active == s.Current() && s'.roles.Keys == s.roles.Keys
              && forall m :: m in s.roles ==> s'.roles[m] == if s.roles[m] == Standby then Service else s.roles[m]
  {
    if !s.profiling && !s.parallel {
      StandbyListIs(s.machines, s.roles);
      AssignEachEffect(s.OpenedAt(now), StandbyList(s.machines, s.roles), Service);
    }
    hide FirstWith, State.AssignEach, StandbyList;
  }

  /** Serial profiling starts from nothing; a request while any profiling is on does nothing. */
  lemma ProfilingRequestBegins(s: State, now: real, s': State)
    requires CanStep(s) && Next(s, ProfilingRequest, now, s')
    ensures s.profiling || s.parallel ==> s' == s
    ensures !s.profiling && !s.parallel ==> s'.recorded == [] && s'.profile == map[] && s'.disconnected == []
  {
    if !s.profiling && !s.parallel {
      BegunCanStep(s);
      MovesOnLists(Begun(s), now, s');
    }
    hide FirstWith, MovesOn;
  }

  /** Moving on is always possible; when only the service is left to profile it stays. */
  lemma CanMoveOn(s: State, now: real)
    requires CanStep(s)
    ensures exists s' :: MovesOn(s, now, s')
    ensures s.Unprofiled() == {s.Current().value} ==> MovesOn(s, now, s)
  {
    hide FirstWith, BestOf, State.SwitchTo, State.Unprofiled, Finished;
    var others := s.Unprofiled() - {s.Current().value};
    assert others <= s.record.Keys by { UnprofiledAreKnown(s); }
    if s.Unprofiled() == {} {
      assert MovesOn(s, now, Finished(s, now));
    } else if others == {} {
      assert MovesOn(s, now, s);
    } else {
      var m :| m in others;
      assert MovesOn(s, now, s.SwitchTo(m, now));
    }
  }

  /** Every callback has an outcome in every state. */
  lemma EveryCallHasAnOutcome(s: State, e: Event, now: real)
    requires CanStep(s)
    ensures exists s' :: Next(s, e, now, s')
  {
    match e
    case ProfileMessage(p) =>
      if s.parallel {
        ParallelMessageHasAnOutcome(s, p, now);
      } else {
        SerialMessageHasAnOutcome(s, p, now);
      }
    case ProfilingRequest =>
      BegunCanStep(s);
      CanMoveOn(Begun(s), now);
      if s.profiling || s.parallel {
        assert Next(s, e, now, s);
      } else {
        var s' :| MovesOn(Begun(s), now, s');
        assert Next(s, e, now, s');
      }
    case ParallelRequest =>
      assert Next(s, e, now, if s.profiling || s.parallel then s
                             else s.OpenedAt(now).AssignEach(StandbyList(s.machines, s.roles), Service));
    case GetBest => assert Next(s, e, now, s.SwitchIfAny(s.Best(None), now));
    case ParallelBest =>
      var t := s.(parallel := false);
      assert Next(s, e, now, if !(s.ready && s.parallel) then s
                             else t.OnlyService(if t.Best(None).Some? then t.Best(None).value else s.active.value));
  }

  lemma ParallelMessageHasAnOutcome(s: State, p: Profile, now: real)
    requires CanStep(s) && s.parallel
    ensures exists s' :: Next(s, ProfileMessage(p), now, s')
  {
    hide FirstWith, CanStep, NonRobotList;
    if p.identity !in s.record {
      assert ParallelMessage(s, p, now, s);
      assert Next(s, ProfileMessage(p), now, s);
    } else {
      var r := s.record[p.identity].Updated(p, now);
      var t := s.(record := s.record[p.identity := r]);
      var u := t.Put(p.identity, p);
      var v := u.(ready := true);
      assert ParallelMessage(s, p, now, t) || ParallelMessage(s, p, now, u) || ParallelMessage(s, p, now, v);
      assert forall s' :: ParallelMessage(s, p, now, s') ==> Next(s, ProfileMessage(p), now, s');
    }
  }

  lemma TimeoutHasAnOutcome(s: State, now: real)
    requires CanStep(s)
    ensures exists s' :: TimeoutStep(s, now, s')
  {
    hide FirstWith, BestOf, MovesOn, State.SwitchIfAny;
    var c := s.Current().value;
    if s.profiling {
      var t := s.(disconnected := s.disconnected + [c]);
      OtherListsCanStep(s, s.profiling, t.disconnected);
      CanMoveOn(t, now);
      var s' :| MovesOn(t, now, s');
      assert TimeoutStep(s, now, s');
    } else {
      RemoveKeepsCanStep(s, c);
      var t := s.Remove(c);
      assert TimeoutStep(s, now, t.SwitchIfAny(t.Best(None), now));
    }
  }

  lemma SerialMessageHasAnOutcome(s: State, p: Profile, now: real)
    requires CanStep(s) && !s.parallel
    ensures exists s' :: Next(s, ProfileMessage(p), now, s')
  {
    hide FirstWith, BestOf, MovesOn, State.SwitchIfAny, TimeoutStep, CheckedRecord, TimesOut, WithinBound;
    var c, t := s.Current().value, Judged(s, p, now);
    TimeoutHasAnOutcome(t, now);
    PutKeepsCanStep(t, c, p);
    CanMoveOn(t.Put(c, p), now);
    var timedOut :| TimeoutStep(t, now, timedOut);
    var moved :| MovesOn(t.Put(c, p), now, moved);
    var switched := t.SwitchIfAny(t.Best(Some(c)), now);
    hide Judged, CanStep;
    assert SerialMessage(s, p, now, timedOut) || SerialMessage(s, p, now, s) || SerialMessage(s, p, now, moved)
           || SerialMessage(s, p, now, t) || SerialMessage(s, p, now, switched);
    assert forall s' :: SerialMessage(s, p, now, s') ==> Next(s, ProfileMessage(p), now, s');
  }

  // ----- Who serves -----

  /** `s'` is served by the machine chosen from some results, or by the one that served before if there is no choice. */
  ghost predicate ChoiceServes(s: State, recorded: seq<Id>, profile: map<Id, Profile>, exclude: Option<Id>, s': State)
  {
    && (forall m :: IsChoice(s.bounds, recorded, profile, exclude, m) ==> s'.Current() == Some(m))
    && ((forall m :: !IsChoice(s.bounds, recorded, profile, exclude, m)) ==> s'.Current() == s.Current())
  }

  lemma SwitchToChoice(s: State, exclude: Option<Id>, now: real)
    requires CanStep(s) && Single(s)
    ensures ChoiceServes(s, s.recorded, s.profile, exclude, s.SwitchIfAny(s.Best(exclude), now))
  {
    var best := s.Best(exclude);
    forall m ensures best == Some(m) <==> IsChoice(s.bounds, s.recorded, s.profile, exclude, m) {
      BestIffChoice(s.bounds, s.recorded, s.profile, exclude, m);
    }
    hide IsChoice, BestOf, FirstWith, State.SwitchTo, Single, CanStep;
    if best.Some? {
      BestIsKnown(s, exclude);
      SwitchStaysSingle(s, best.value, now);
    }
  }

  lemma BestIsKnown(s: State, exclude: Option<Id>)
    requires CanStep(s) && s.Best(exclude).Some?
    ensures s.Best(exclude).value in s.roles
  {
  }

  /** In every run, a profile message that arrives while nothing is profiled moves the service exactly in two cases: the
      service is silent by its history, and then the choice is made from the profiles of the others, its own being
      struck off; or it has sent the message itself, is not silent, the message is out of bounds, and switching is
      automatic, and then the choice is made from the others too.  Without a choice it goes on serving. */
  lemma RunningService(t: Trace, p: Profile, now: real, s': State)
    requires Run(t) && CanStep(t.s) && Single(t.s) && !t.s.parallel && !t.s.profiling
    requires Next(t.s, ProfileMessage(p), now, s') && t.s.Current().value in t.First().record
    ensures var s, c := t.s, t.s.Current().value;
            if Silent(t.First().record[c], HistoryWith(t, c, p, now), now) then
              ChoiceServes(s, Without(s.recorded, c), s.profile - {c}, None, s')
            else if p.identity == c && s.automatic && !WithinBound(s.bounds, p) then
              ChoiceServes(s, s.recorded, s.profile, Some(c), s')
            else s'.Current() == s.Current()
  {
    var s, c := t.s, t.s.Current().value;
    CheckedIsHistory(t, p, now);
    TimesOutWhenSilent(t.First().record[c], HistoryWith(t, c, p, now), now);
    assert SerialMessage(s, p, now, s');
    hide Run, HistoryWith, Replayed, Silent, HeardCount, Record.TimedOut, Next;
    MessageServes(s, p, now, s');
  }

  lemma MessageServes(s: State, p: Profile, now: real, s': State)
    requires CanStep(s) && Single(s) && !s.parallel && !s.profiling && SerialMessage(s, p, now, s')
    ensures var c := s.Current().value;
            if TimesOut(s, p, now) then ChoiceServes(s, Without(s.recorded, c), s.profile - {c}, None, s')
            else if p.identity == c && s.automatic && !WithinBound(s.bounds, p) then
              ChoiceServes(s, s.recorded, s.profile, Some(c), s')
            else s'.Current() == s.Current()
  {
    var c, t := s.Current().value, Judged(s, p, now);
    JudgedServes(s, p, now);
    hide FirstWith, BestOf, CheckedRecord, WithinBound, Record.HasRunOutOfSkippedProfiles, Judged, TimesOut, IsChoice;
    hide CanStep, Single, State.SwitchIfAny, Without;
    SwitchToChoice(t.Remove(c), None, now);
    SwitchToChoice(t, Some(c), now);
  }

  lemma JudgedServes(s: State, p: Profile, now: real)
    requires CanStep(s) && Single(s)
    ensures var t := Judged(s, p, now);
            && Single(t) && t.bounds == s.bounds && SameResults(s, t) && t.profiling == s.profiling
            && t.automatic == s.automatic
    ensures var c, t := s.Current().value, Judged(s, p, now);
            var u := t.Remove(c);
            && CanStep(u) && u.Current() == s.Current() && Single(u) && u.bounds == s.bounds && StruckOff(s, c, u)
  {
    hide CheckedRecord, FirstWith;
    RemoveKeepsCanStep(Judged(s, p, now), s.Current().value);
  }

  /** Asking for the best machine switches to the choice among all recorded ones, if there is one. */
  lemma BestServesWhenAsked(s: State, now: real, s': State)
    requires CanStep(s) && Single(s) && Next(s, GetBest, now, s')
    ensures ChoiceServes(s, s.recorded, s.profile, None, s')
  {
    SwitchToChoice(s, None, now);
  }
}
