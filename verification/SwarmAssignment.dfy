/**
  sgc_launch/sgc_swarm.py: how a machine follows the states assigned to it by adding, pausing and resuming topics in
  its router, driven by the callbacks of sgc_launch/sgc_node.py.
 */
module SwarmAssignment {
  import opened Wrappers

  datatype Action = Pub | Sub

  /** One entry of a state's topics. */
  datatype Topic = Topic(name: string, action: Action)

  /** The states by name; a state may have no list of topics at all. */
  type States = map<string, Option<seq<Topic>>>

  datatype Op = Add | Resume | Del

  /** A request to the router. */
  datatype TopicRequest = TopicRequest(op: Op, topic: Topic)

  datatype Outcome = Done | KeyError | TypeError

  /** `assignment` is the whole dictionary, `sent` what the router was told. */
  datatype State = State(assignment: map<string, string>, paused: seq<string>, sent: seq<TopicRequest>)

  /** The first occurrence of a name taken out. */
  function Without(names: seq<string>, n: string): seq<string> {
    if |names| == 0 then []
    else if names[0] == n then names[1..]
    else [names[0]] + Without(names[1..], n)
  }

  function PauseTopic(s: State, t: Topic): State {
    s.(paused := s.paused + [t.name], sent := s.sent + [TopicRequest(Del, t)])
  }

  function StartTopic(s: State, t: Topic): State {
    if t.name in s.paused
    then s.(paused := Without(s.paused, t.name), sent := s.sent + [TopicRequest(Resume, t)])
    else s.(sent := s.sent + [TopicRequest(Add, t)])
  }

  function PauseTopics(s: State, ts: seq<Topic>): State {
    if |ts| == 0 then s else PauseTopic(PauseTopics(s, ts[..|ts| - 1]), ts[|ts| - 1])
  }

  function StartTopics(s: State, ts: seq<Topic>): State {
    if |ts| == 0 then s else StartTopic(StartTopics(s, ts[..|ts| - 1]), ts[|ts| - 1])
  }

  function TopicsOf(states: States, state: string): seq<Topic> {
    if state in states && states[state].Some? then states[state].value else []
  }

  /** The assignment changes something that has to be revoked. */
  predicate Revokes(me: string, s: State, state: string) {
    me in s.assignment && s.assignment[me] != state
  }

  /** The machine's own entry of the dictionary given to `apply_assignment`. */
  function ApplyOwn(states: States, me: string, s: State, state: string): (State, Outcome) {
    if Revokes(me, s, state) && s.assignment[me] !in states then (s, KeyError)
    else if Revokes(me, s, state) && states[s.assignment[me]].None? then (s, TypeError)
    else
      var revoked := if Revokes(me, s, state) then PauseTopics(s, TopicsOf(states, s.assignment[me])) else s;
      if state !in states then (revoked, KeyError)
      else
        var started := StartTopics(revoked, TopicsOf(states, state));
        (started.(assignment := started.assignment[me := state]), Done)
  }

  function Apply(states: States, me: string, s: State, machine: string, state: string): (State, Outcome) {
    if machine == me then ApplyOwn(states, me, s, state)
    else (s.(assignment := s.assignment[machine := state]), Done)
  }

  /** What the node does: an operator's request is always applied, an update from another machine only if it is news. */
  datatype Event = Requested(machine: string, state: string) | Updated(machine: string, state: string)

  function Next(states: States, me: string, s: State, e: Event): (State, Outcome) {
    match e
    case Requested(machine, state) => Apply(states, me, s, machine, state)
    case Updated(machine, state) =>
      if machine !in s.assignment then (s, KeyError)
      else if s.assignment[machine] == state then (s, Done)
      else Apply(states, me, s, machine, state)
  }

  /** The assignment of the configuration file, without the states that it does not define. */
  function Merged(states: States, entries: seq<(string, string)>): map<string, string> {
    if |entries| == 0 then map[]
    else
      var (machine, state) := entries[|entries| - 1];
      var before := Merged(states, entries[..|entries| - 1]);
      if state in states then before[machine := state] else before
  }

  /** The launch hands the dictionary just read to `apply_assignment` as the new one, so nothing is revoked. */
  function Launched(states: States, me: string, entries: seq<(string, string)>): State {
    var s := State(Merged(states, entries), [], []);
    if me in s.assignment then StartTopics(s, TopicsOf(states, s.assignment[me])) else s
  }

  // ----- What the router makes of it -----

  function Added(sent: seq<TopicRequest>): set<string> {
    if |sent| == 0 then {}
    else
      var r := sent[|sent| - 1];
      Added(sent[..|sent| - 1]) + if r.op == Add then {r.topic.name} else {}
  }

  function Running(sent: seq<TopicRequest>): set<string> {
    if |sent| == 0 then {}
    else
      var r := sent[|sent| - 1];
      var before := Running(sent[..|sent| - 1]);
      if r.op == Del then before - {r.topic.name} else before + {r.topic.name}
  }

  /** A topic is added once, only what runs is deleted, and only what was added and does not run is resumed. */
  predicate Orderly(sent: seq<TopicRequest>) {
    |sent| > 0 ==>
      var r, before := sent[|sent| - 1], sent[..|sent| - 1];
      && Orderly(before)
      && match r.op
         case Add => r.topic.name !in Added(before)
         case Resume => r.topic.name in Added(before) && r.topic.name !in Running(before)
         case Del => r.topic.name in Running(before)
  }

  function Names(ts: seq<Topic>): set<string> {
    set t | t in ts :: t.name
  }

  ghost predicate DistinctTopics(ts: seq<Topic>) {
    forall i, j :: 0 <= i < j < |ts| ==> ts[i].name != ts[j].name
  }

  /** No state lists a topic twice. */
  ghost predicate Sound(states: States) {
    forall state :: state in states ==> DistinctTopics(TopicsOf(states, state))
  }

  /** The router was told an orderly story, by which the topics that run are `running`; the others that were ever
      added are the paused ones, each listed once. */
  ghost predicate Tidy(s: State, running: set<string>) {
    && Orderly(s.sent) && Running(s.sent) == running
    && NoDuplicates(s.paused) && (set n | n in s.paused) == Added(s.sent) - running
  }

  function Assigned(states: States, me: string, s: State): set<string> {
    if me in s.assignment then Names(TopicsOf(states, s.assignment[me])) else {}
  }

  /** The topics that run are those of the machine's state. */
  ghost predicate Good(states: States, me: string, s: State) {
    Tidy(s, Assigned(states, me, s))
  }

  lemma {:induction false} RunningWasAdded(sent: seq<TopicRequest>)
    requires Orderly(sent)
    ensures Running(sent) <= Added(sent)
  {
    if |sent| > 0 {
      RunningWasAdded(sent[..|sent| - 1]);
    }
  }

  lemma Snoc(sent: seq<TopicRequest>, r: TopicRequest)
    ensures Added(sent + [r]) == Added(sent) + if r.op == Add then {r.topic.name} else {}
    ensures Running(sent + [r]) ==
              if r.op == Del then Running(sent) - {r.topic.name} else Running(sent) + {r.topic.name}
    ensures Orderly(sent + [r]) <==>
              && Orderly(sent)
              && match r.op
                 case Add => r.topic.name !in Added(sent)
                 case Resume => r.topic.name in Added(sent) && r.topic.name !in Running(sent)
                 case Del => r.topic.name in Running(sent)
  {
    assert (sent + [r])[..|sent|] == sent;
  }

  lemma {:induction false} WithoutMember(names: seq<string>, n: string, m: string)
    requires NoDuplicates(names)
    ensures m in Without(names, n) <==> m in names && m != n
  {
    if |names| > 0 {
      assert names == [names[0]] + names[1..];
      if names[0] != n {
        WithoutMember(names[1..], n, m);
      }
    }
  }

  lemma {:induction false} WithoutDistinct(names: seq<string>, n: string)
    requires NoDuplicates(names)
    ensures NoDuplicates(Without(names, n))
  {
    if |names| > 0 && names[0] != n {
      WithoutDistinct(names[1..], n);
      WithoutMember(names[1..], n, names[0]);
    }
  }

  lemma WithoutOne(names: seq<string>, n: string)
    requires NoDuplicates(names)
    ensures NoDuplicates(Without(names, n))
    ensures (set m | m in Without(names, n)) == (set m | m in names) - {n}
  {
    WithoutDistinct(names, n);
    forall m ensures m in Without(names, n) <==> m in names && m != n {
      WithoutMember(names, n, m);
    }
  }

  lemma PauseStaysTidy(s: State, running: set<string>, t: Topic)
    requires Tidy(s, running) && t.name in running
    ensures Tidy(PauseTopic(s, t), running - {t.name})
  {
    Snoc(s.sent, TopicRequest(Del, t));
    RunningWasAdded(s.sent);
    var paused := set n | n in s.paused;
    assert t.name !in paused;
    assert (set n | n in s.paused + [t.name]) == paused + {t.name};
  }

  lemma StartStaysTidy(s: State, running: set<string>, t: Topic)
    requires Tidy(s, running) && t.name !in running
    ensures Tidy(StartTopic(s, t), running + {t.name})
  {
    Snoc(s.sent, TopicRequest(Resume, t));
    Snoc(s.sent, TopicRequest(Add, t));
    RunningWasAdded(s.sent);
    WithoutOne(s.paused, t.name);
    var paused := set n | n in s.paused;
    assert t.name in paused <==> t.name in s.paused;
  }

  lemma NamesOfFront(ts: seq<Topic>)
    requires |ts| > 0
    ensures Names(ts) == Names(ts[..|ts| - 1]) + {ts[|ts| - 1].name}
    ensures DistinctTopics(ts) ==> DistinctTopics(ts[..|ts| - 1]) && ts[|ts| - 1].name !in Names(ts[..|ts| - 1])
  {
    assert ts == ts[..|ts| - 1] + [ts[|ts| - 1]];
  }

  lemma {:induction false} PausesStayTidy(s: State, running: set<string>, ts: seq<Topic>)
    requires Tidy(s, running) && DistinctTopics(ts) && Names(ts) <= running
    ensures Tidy(PauseTopics(s, ts), running - Names(ts)) && PauseTopics(s, ts).assignment == s.assignment
  {
    if |ts| == 0 {
      assert running - Names(ts) == running;
    } else {
      var front, t := ts[..|ts| - 1], ts[|ts| - 1];
      NamesOfFront(ts);
      PausesStayTidy(s, running, front);
      PauseStaysTidy(PauseTopics(s, front), running - Names(front), t);
      assert running - Names(front) - {t.name} == running - Names(ts);
    }
  }

  lemma {:induction false} StartsStayTidy(s: State, running: set<string>, ts: seq<Topic>)
    requires Tidy(s, running) && DistinctTopics(ts) && Names(ts) !! running
    ensures Tidy(StartTopics(s, ts), running + Names(ts)) && StartTopics(s, ts).assignment == s.assignment
  {
    if |ts| == 0 {
      assert running + Names(ts) == running;
    } else {
      var front, t := ts[..|ts| - 1], ts[|ts| - 1];
      NamesOfFront(ts);
      StartsStayTidy(s, running, front);
      StartStaysTidy(StartTopics(s, front), running + Names(front), t);
      assert running + Names(front) + {t.name} == running + Names(ts);
    }
  }

  // ----- Steps and runs -----

  /** An event after which the router no longer does what the machine's state says: the machine is assigned the
      state that it is in, which adds its topics again, or a state that is not defined, which pauses the topics
      of the state that it stays in.  In both cases the state that it is in has topics. */
  predicate Upsets(states: States, me: string, s: State, e: Event) {
    && e.machine == me && me in s.assignment && TopicsOf(states, s.assignment[me]) != []
    && (if s.assignment[me] == e.state then e.Requested? else e.state !in states)
  }

  lemma {:induction false} StartsKeepLog(s: State, ts: seq<Topic>)
    ensures s.sent <= StartTopics(s, ts).sent
    ensures |ts| > 0 && ts[0].name !in s.paused ==> TopicRequest(Add, ts[0]) in StartTopics(s, ts).sent[|s.sent|..]
    ensures StartTopics(s, ts).assignment == s.assignment
  {
    if |ts| > 0 {
      var front := ts[..|ts| - 1];
      StartsKeepLog(s, front);
      var before, after := StartTopics(s, front).sent, StartTopics(s, ts).sent;
      assert after[|s.sent|..] == before[|s.sent|..] + [after[|before|]];
      assert after[|after| - 1] in after[|s.sent|..];
    }
  }

  lemma {:induction false} AddedTwiceIsDisorderly(before: seq<TopicRequest>, more: seq<TopicRequest>, r: TopicRequest)
    requires r.op == Add && r in more && r.topic.name in Added(before)
    ensures !Orderly(before + more)
  {
    var front, last := more[..|more| - 1], more[|more| - 1];
    assert before + more == (before + front) + [last];
    Snoc(before + front, last);
    if r in front {
      AddedTwiceIsDisorderly(before, front, r);
    } else {
      assert r == last;
      AddedGrows(before, front);
    }
  }

  lemma {:induction false} AddedGrows(before: seq<TopicRequest>, more: seq<TopicRequest>)
    ensures Added(before) <= Added(before + more)
  {
    if |more| == 0 {
      assert before + more == before;
    } else {
      AddedGrows(before, more[..|more| - 1]);
      assert before + more == (before + more[..|more| - 1]) + [more[|more| - 1]];
      Snoc(before + more[..|more| - 1], more[|more| - 1]);
    }
  }

  /** A change of state, or the first assignment, to a state that is defined. */
  lemma ChangeStaysGood(states: States, me: string, s: State, state: string)
    requires Sound(states) && Good(states, me, s)
    requires state in states && (me in s.assignment ==> s.assignment[me] != state)
    ensures Good(states, me, ApplyOwn(states, me, s, state).0)
  {
    if me in s.assignment {
      if s.assignment[me] in states && states[s.assignment[me]].Some? {
        var previous := TopicsOf(states, s.assignment[me]);
        PausesStayTidy(s, Names(previous), previous);
        assert Names(previous) - Names(previous) == {};
        StartsStayTidy(PauseTopics(s, previous), {}, TopicsOf(states, state));
        assert {} + Names(TopicsOf(states, state)) == Names(TopicsOf(states, state));
      }
    } else {
      StartsStayTidy(s, {}, TopicsOf(states, state));
      assert {} + Names(TopicsOf(states, state)) == Names(TopicsOf(states, state));
    }
  }

  /** Assigning the same state again adds topics that were added before. */
  lemma SameStateAddsAgain(states: States, me: string, s: State)
    requires Good(states, me, s) && me in s.assignment && s.assignment[me] in states
    ensures Good(states, me, ApplyOwn(states, me, s, s.assignment[me]).0) <==> TopicsOf(states, s.assignment[me]) == []
  {
    var ts := TopicsOf(states, s.assignment[me]);
    var s' := StartTopics(s, ts);
    if ts == [] {
      assert s.(assignment := s.assignment[me := s.assignment[me]]) == s;
    } else {
      assert ts[0].name in Names(ts);
      RunningWasAdded(s.sent);
      assert ts[0].name !in (set n | n in s.paused);
      StartsKeepLog(s, ts);
      assert s'.sent == s.sent + s'.sent[|s.sent|..];
      AddedTwiceIsDisorderly(s.sent, s'.sent[|s.sent|..], TopicRequest(Add, ts[0]));
    }
  }

  /** An undefined state pauses what runs and leaves the machine in the state that it was in. */
  lemma UndefinedStateStops(states: States, me: string, s: State, state: string)
    requires Sound(states) && Good(states, me, s) && state !in states
    ensures Good(states, me, ApplyOwn(states, me, s, state).0) <==>
            !(me in s.assignment && TopicsOf(states, s.assignment[me]) != [])
  {
    if Revokes(me, s, state) && s.assignment[me] in states && states[s.assignment[me]].Some? {
      var ts := TopicsOf(states, s.assignment[me]);
      PausesStayTidy(s, Names(ts), ts);
      assert Names(ts) - Names(ts) == {};
      if ts != [] {
        assert ts[0].name in Names(ts);
      } else {
        assert PauseTopics(s, ts) == s;
      }
    }
  }

  /** The machine's state is one of those defined. */
  predicate Defined(states: States, me: string, s: State) {
    me in s.assignment ==> s.assignment[me] in states
  }

  /** One event keeps the router in step with the machine's state exactly unless it upsets it. */
  lemma StepStaysGood(states: States, me: string, s: State, e: Event)
    requires Sound(states) && Good(states, me, s) && Defined(states, me, s)
    ensures Good(states, me, Next(states, me, s, e).0) <==> !Upsets(states, me, s, e)
    ensures Defined(states, me, Next(states, me, s, e).0)
  {
    if e.machine == me {
      if me in s.assignment && s.assignment[me] == e.state {
        SameStateAddsAgain(states, me, s);
        StartsKeepLog(s, TopicsOf(states, e.state));
      } else if e.state in states {
        ChangeStaysGood(states, me, s, e.state);
      } else {
        UndefinedStateStops(states, me, s, e.state);
        if Revokes(me, s, e.state) {
          PausesKeepAssignment(s, TopicsOf(states, s.assignment[me]));
        }
      }
    }
  }

  lemma {:induction false} PausesKeepAssignment(s: State, ts: seq<Topic>)
    ensures PauseTopics(s, ts).assignment == s.assignment
  {
    if |ts| > 0 {
      PausesKeepAssignment(s, ts[..|ts| - 1]);
    }
  }

  function After(states: States, me: string, entries: seq<(string, string)>, events: seq<Event>): State {
    if |events| == 0 then Launched(states, me, entries)
    else Next(states, me, After(states, me, entries, events[..|events| - 1]), events[|events| - 1]).0
  }

  lemma {:induction false} MergedAreDefined(states: States, entries: seq<(string, string)>)
    ensures forall m :: m in Merged(states, entries) ==> Merged(states, entries)[m] in states
  {
    if |entries| > 0 {
      MergedAreDefined(states, entries[..|entries| - 1]);
    }
  }

  lemma LaunchIsGood(states: States, me: string, entries: seq<(string, string)>)
    requires Sound(states)
    ensures Good(states, me, Launched(states, me, entries)) && Defined(states, me, Launched(states, me, entries))
  {
    MergedAreDefined(states, entries);
    var s := State(Merged(states, entries), [], []);
    if me in s.assignment {
      StartsStayTidy(s, {}, TopicsOf(states, s.assignment[me]));
      assert {} + Names(TopicsOf(states, s.assignment[me])) == Names(TopicsOf(states, s.assignment[me]));
    }
  }

  lemma OneTopic(s: State, t: Topic)
    ensures StartTopics(s, [t]) == StartTopic(s, t) && PauseTopics(s, [t]) == PauseTopic(s, t)
  {
    assert [t][..0] == [];
  }

  lemma LaunchOfOne(states: States, me: string, st: string, t: Topic)
    requires st in states && states[st] == Some([t])
    ensures After(states, me, [(me, st)], []) == State(map[me := st], [], [TopicRequest(Add, t)])
  {
    var entries := [(me, st)];
    assert entries[..0] == [] && Merged(states, entries) == map[me := st];
    OneTopic(State(map[me := st], [], []), t);
  }

  /** A machine launched in a state with one topic: a request for the same state adds the topic again, and one for a
      state that is not defined stops the topic of the state that the machine stays in. */
  lemma LaunchedAndUpset(me: string, st: string, other: string, t: Topic)
    requires st != other
    ensures var states: States := map[st := Some([t])];
            var s := After(states, me, [(me, st)], []);
            && !Good(states, me, Next(states, me, s, Requested(me, st)).0)
            && !Good(states, me, Next(states, me, s, Requested(me, other)).0)
            && Next(states, me, s, Requested(me, st)).0.sent == [TopicRequest(Add, t), TopicRequest(Add, t)]
            && Next(states, me, s, Requested(me, other)).0.sent == [TopicRequest(Add, t), TopicRequest(Del, t)]
            && Next(states, me, s, Requested(me, other)).0.assignment == s.assignment
  {
    var states: States := map[st := Some([t])];
    var s := After(states, me, [(me, st)], []);
    LaunchOfOne(states, me, st, t);
    LaunchIsGood(states, me, [(me, st)]);
    StepStaysGood(states, me, s, Requested(me, st));
    StepStaysGood(states, me, s, Requested(me, other));
    OneTopic(s, t);
    hide StartTopics, PauseTopics, After, Good;
  }

  /** In every run without upsetting events, each topic is added once and from then on only paused and resumed, the
      running topics are those of the machine's state, and the paused ones are all others ever added. */
  lemma {:induction false} AddAtMostOnce(states: States, me: string, entries: seq<(string, string)>, events: seq<Event>)
    requires Sound(states)
    requires forall i :: 0 <= i < |events| ==> !Upsets(states, me, After(states, me, entries, events[..i]), events[i])
    ensures Good(states, me, After(states, me, entries, events))
    ensures Defined(states, me, After(states, me, entries, events))
  {
    if |events| == 0 {
      LaunchIsGood(states, me, entries);
    } else {
      var front := events[..|events| - 1];
      forall i | 0 <= i < |front|
        ensures !Upsets(states, me, After(states, me, entries, front[..i]), front[i])
      {
        assert front[..i] == events[..i];
      }
      AddAtMostOnce(states, me, entries, front);
      StepStaysGood(states, me, After(states, me, entries, front), events[|events| - 1]);
    }
  }

  // ----- Which changes succeed -----

  predicate WithoutTopics(states: States, me: string, s: State) {
    me in s.assignment && s.assignment[me] in states && states[s.assignment[me]].None?
  }

  lemma StartsKeepAssignment(s: State, ts: seq<Topic>)
    ensures StartTopics(s, ts).assignment == s.assignment
  {
    StartsKeepLog(s, ts);
  }

  /** A machine takes on a state exactly when the state is defined and is the one that it is in, or the one that it is
      in has a list of topics; otherwise it stays in its state. */
  lemma ChangeSucceeds(states: States, me: string, s: State, state: string)
    requires Defined(states, me, s)
    ensures var (s', outcome) := ApplyOwn(states, me, s, state);
            && outcome == (if WithoutTopics(states, me, s) && s.assignment[me] != state then TypeError
                           else if state !in states then KeyError else Done)
            && s'.assignment == if outcome == Done then s.assignment[me := state] else s.assignment
  {
    var topics := if me in s.assignment then TopicsOf(states, s.assignment[me]) else [];
    PausesKeepAssignment(s, topics);
    var revoked := if Revokes(me, s, state) then PauseTopics(s, topics) else s;
    StartsKeepAssignment(revoked, TopicsOf(states, state));
    hide PauseTopics, StartTopics, TopicsOf;
  }

  /** If its state were not one of those defined, nothing could be revoked; `RunIsDefined` shows that this never is. */
  lemma UndefinedOwnState(states: States, me: string, s: State, state: string)
    requires me in s.assignment && s.assignment[me] !in states && s.assignment[me] != state
    ensures ApplyOwn(states, me, s, state) == (s, KeyError)
  {
  }

  /** The condition on which an event succeeds; what other machines do is only remembered. */
  predicate Succeeds(states: States, me: string, s: State, e: Event) {
    && (e.Updated? ==> e.machine in s.assignment)
    && (|| e.machine != me
        || (e.Updated? && s.assignment[me] == e.state)
        || (e.state in states && !(WithoutTopics(states, me, s) && s.assignment[me] != e.state)))
  }

  lemma StepSucceeds(states: States, me: string, s: State, e: Event)
    requires Defined(states, me, s)
    ensures var (s', outcome) := Next(states, me, s, e);
            && outcome == (if Succeeds(states, me, s, e) then Done
                           else if e.machine == me && WithoutTopics(states, me, s) && s.assignment[me] != e.state
                           then TypeError else KeyError)
            && s'.assignment == (if outcome == Done then s.assignment[e.machine := e.state] else s.assignment)
            && Defined(states, me, s')
  {
    ChangeSucceeds(states, me, s, e.state);
    hide ApplyOwn;
  }

  lemma {:induction false} RunIsDefined(states: States, me: string, entries: seq<(string, string)>, events: seq<Event>)
    ensures Defined(states, me, After(states, me, entries, events))
  {
    if |events| == 0 {
      LaunchIsDefined(states, me, entries);
    } else {
      RunIsDefined(states, me, entries, events[..|events| - 1]);
      StepSucceeds(states, me, After(states, me, entries, events[..|events| - 1]), events[|events| - 1]);
      hide Next, Succeeds, Defined;
    }
  }

  /** In every run each event succeeds exactly on that condition, and then it assigns the machine that it names its
      new state; an event that fails changes no machine's state. */
  lemma RunSucceeds(
    states: States, me: string, entries: seq<(string, string)>, events: seq<Event>, i: nat)
    requires i < |events|
    ensures var s := After(states, me, entries, events[..i]);
            && (Next(states, me, s, events[i]).1 == Done <==> Succeeds(states, me, s, events[i]))
            && After(states, me, entries, events[..i + 1]).assignment ==
                 if Succeeds(states, me, s, events[i])
                 then s.assignment[events[i].machine := events[i].state] else s.assignment
  {
    RunIsDefined(states, me, entries, events[..i]);
    StepSucceeds(states, me, After(states, me, entries, events[..i]), events[i]);
    assert events[..i + 1][..i] == events[..i];
    hide Next, Succeeds, Defined;
  }

  lemma LaunchIsDefined(states: States, me: string, entries: seq<(string, string)>)
    ensures Defined(states, me, Launched(states, me, entries))
  {
    MergedAreDefined(states, entries);
    var s := State(Merged(states, entries), [], []);
    if me in s.assignment {
      StartsKeepAssignment(s, TopicsOf(states, s.assignment[me]));
    }
  }

  lemma StuckStep(states: States, me: string, s: State, e: Event)
    requires WithoutTopics(states, me, s)
    ensures var s' := Next(states, me, s, e).0;
            WithoutTopics(states, me, s') && s'.assignment[me] == s.assignment[me] && s'.sent == s.sent
    ensures e.machine == me && e.state != s.assignment[me] ==> Next(states, me, s, e) == (s, TypeError)
  {
  }

  /** A machine in a state without a list of topics can never leave it: every change of its state fails. */
  lemma {:induction false} StuckWithoutTopics(
    states: States, me: string, entries: seq<(string, string)>, events: seq<Event>, later: seq<Event>)
    requires WithoutTopics(states, me, After(states, me, entries, events))
    ensures var s, s' := After(states, me, entries, events), After(states, me, entries, events + later);
            WithoutTopics(states, me, s') && s'.assignment[me] == s.assignment[me] && s'.sent == s.sent
    decreases |later|
  {
    if |later| == 0 {
      assert events + later == events;
    } else {
      var front := later[..|later| - 1];
      StuckWithoutTopics(states, me, entries, events, front);
      assert (events + later)[..|events + later| - 1] == events + front;
      StuckStep(states, me, After(states, me, entries, events + front), later[|later| - 1]);
      hide Next;
    }
  }

  /** The machine is in a state and some later events make it change to another. */
  ghost predicate CanLeave(states: States, me: string, entries: seq<(string, string)>, events: seq<Event>)
    requires me in After(states, me, entries, events).assignment
  {
    exists later ::
      var s, s' := After(states, me, entries, events), After(states, me, entries, events + later);
      me in s'.assignment && s'.assignment[me] != s.assignment[me]
  }

  /** After any run a machine can still leave its state exactly when the state has a list of topics and another state
      is defined. */
  lemma LeavesUnlessWithoutTopics(
    states: States, me: string, entries: seq<(string, string)>, events: seq<Event>)
    requires me in After(states, me, entries, events).assignment
    ensures var s := After(states, me, entries, events);
            CanLeave(states, me, entries, events) <==>
            !WithoutTopics(states, me, s) && exists other :: other in states && other != s.assignment[me]
  {
    var s := After(states, me, entries, events);
    RunIsDefined(states, me, entries, events);
    if CanLeave(states, me, entries, events) {
      var later :| var s' := After(states, me, entries, events + later);
                   me in s'.assignment && s'.assignment[me] != s.assignment[me];
      RunIsDefined(states, me, entries, events + later);
      if WithoutTopics(states, me, s) {
        StuckWithoutTopics(states, me, entries, events, later);
      }
    } else if other :| other in states && other != s.assignment[me] && !WithoutTopics(states, me, s) {
      var later := [Requested(me, other)];
      StepSucceeds(states, me, s, later[0]);
      assert (events + later)[..|events|] == events;
      assert After(states, me, entries, events + later) == Next(states, me, s, later[0]).0;
    }
  }

  /** A machine launched in a state without a list of topics cannot be assigned the other state. */
  lemma LaunchedWithoutTopics(me: string, st: string, other: string)
    requires st != other
    ensures var states: States := map[st := None, other := Some([])];
            var s := After(states, me, [(me, st)], []);
            && WithoutTopics(states, me, s) && s.assignment[me] == st
            && Next(states, me, s, Requested(me, other)) == (s, TypeError)
  {
    var states: States := map[st := None, other := Some([])];
    var entries := [(me, st)];
    assert entries[..0] == [];
    assert Merged(states, entries) == map[me := st];
  }

  // ----- The machine -----

  /** The parts of `SGC_Swarm` and `SGC_Node` that follow assignments. */
  class Swarm {
    const states: States
    const instanceIdentifier: string
    var assignmentDict: map<string, string>
    var pausedTopics: seq<string>
    var sent: seq<TopicRequest>

    ghost function View(): State
      reads this
    {
      State(assignmentDict, pausedTopics, sent)
    }

    constructor (states: States, instanceIdentifier: string)
      ensures this.states == states && this.instanceIdentifier == instanceIdentifier
      ensures View() == State(map[], [], [])
    {
      this.states, this.instanceIdentifier := states, instanceIdentifier;
      assignmentDict, pausedTopics, sent := map[], [], [];
    }

    method Revoke(topics: seq<Topic>)
      modifies this`pausedTopics, this`sent
      ensures View() == PauseTopics(old(View()), topics)
    {
      for i := 0 to |topics|
        invariant View() == PauseTopics(old(View()), topics[..i])
      {
        assert topics[..i + 1][..i] == topics[..i];
        sent := sent + [TopicRequest(Del, topics[i])];
        pausedTopics := pausedTopics + [topics[i].name];
      }
      assert topics[..|topics|] == topics;
    }

    method Start(topics: seq<Topic>)
      modifies this`pausedTopics, this`sent
      ensures View() == StartTopics(old(View()), topics)
    {
      for i := 0 to |topics|
        invariant View() == StartTopics(old(View()), topics[..i])
      {
        assert topics[..i + 1][..i] == topics[..i];
        if topics[i].name in pausedTopics {
          sent := sent + [TopicRequest(Resume, topics[i])];
          pausedTopics := Without(pausedTopics, topics[i].name);
        } else {
          sent := sent + [TopicRequest(Add, topics[i])];
        }
      }
      assert topics[..|topics|] == topics;
    }

    /** `apply_assignment` for one entry of the new dictionary. */
    method ApplyAssignment(machine: string, state: string) returns (outcome: Outcome)
      modifies this
      ensures (View(), outcome) == Apply(states, instanceIdentifier, old(View()), machine, state)
    {
      if machine == instanceIdentifier {
        if machine in assignmentDict && assignmentDict[machine] != state {
          var previous := assignmentDict[machine];
          if previous !in states {
            return KeyError;
          }
          if states[previous].None? {
            return TypeError;
          }
          Revoke(states[previous].value);
        }
        if state !in states {
          return KeyError;
        }
        if states[state].Some? {
          Start(states[state].value);
        }
      }
      assignmentDict := assignmentDict[machine := state];
      return Done;
    }

    /** The launch: the dictionary is read from the file first, then applied as the new one. */
    method Launch(entries: seq<(string, string)>)
      requires View() == State(map[], [], [])
      modifies this
      ensures View() == Launched(states, instanceIdentifier, entries)
    {
      for i := 0 to |entries|
        invariant View() == State(Merged(states, entries[..i]), [], [])
      {
        assert entries[..i + 1][..i] == entries[..i];
        if entries[i].1 in states {
          assignmentDict := assignmentDict[entries[i].0 := entries[i].1];
        }
      }
      assert entries[..|entries|] == entries;
      if instanceIdentifier in assignmentDict {
        var state := assignmentDict[instanceIdentifier];
        MergedAreDefined(states, entries);
        StartsKeepLog(View(), TopicsOf(states, state));
        var outcome := ApplyAssignment(instanceIdentifier, state);
        assert assignmentDict == Merged(states, entries);
      }
    }

    method SgcAssignmentCallback(machine: string, state: string) returns (outcome: Outcome)
      modifies this
      ensures (View(), outcome) == Next(states, instanceIdentifier, old(View()), Requested(machine, state))
    {
      outcome := ApplyAssignment(machine, state);
    }

    method AssignmentUpdateCallback(machine: string, state: string) returns (outcome: Outcome)
      modifies this
      ensures (View(), outcome) == Next(states, instanceIdentifier, old(View()), Updated(machine, state))
    {
      if machine !in assignmentDict {
        return KeyError;
      }
      if assignmentDict[machine] == state {
        return Done;
      }
      outcome := ApplyAssignment(machine, state);
    }
  }
}
