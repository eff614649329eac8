/**
  fogrs-core/src/rib.rs: the routing information base, which answers queries for names from the records it has seen
  and remembers who asked for a name that it does not know.
 */
module Rib {
  import opened Wrappers
  import opened PacketStructs

  datatype RecordType = EMPTY | INFO | QUERY | UPDATE | MERGE | DELETE

  datatype Details = Details(
    webrtcOffer: Option<string>, ipAddress: Option<string>, ros: Option<(string, string)>, indirect: Option<GdpName>)

  const NO_DETAILS := Details(None, None, None, None)

  /** For a query `source` is who asked, for an answer whom it goes to. */
  datatype Record = Record(kind: RecordType, name: GdpName, source: GdpName, details: Details)

  datatype State = State(table: map<GdpName, seq<Record>>, pending: map<GdpName, seq<GdpName>>)

  function Records(s: State, n: GdpName): seq<Record> {
    if n in s.table then s.table[n] else []
  }

  function Pending(s: State, n: GdpName): seq<GdpName> {
    if n in s.pending then s.pending[n] else []
  }

  /** What every record of a list says, as answers to `asker`. */
  function Answers(records: seq<Record>, asker: GdpName): (r: seq<Record>)
    ensures |r| == |records|
  {
    seq(|records|, i requires 0 <= i < |records| => Record(INFO, records[i].name, asker, records[i].details))
  }

  /** One record's news, as answers to all of a list of askers. */
  function News(record: Record, askers: seq<GdpName>): (r: seq<Record>)
    ensures |r| == |askers|
  {
    seq(|askers|, i requires 0 <= i < |askers| => Record(INFO, record.name, askers[i], record.details))
  }

  function Put(s: State, q: Record): State {
    s.(table := s.table[q.name := Records(s, q.name) + [q]])
  }

  /** A known name always has records, so a name without any is unknown. */
  function Next(s: State, q: Record): State {
    match q.kind
    case QUERY =>
      if Records(s, q.name) == [] && q.source !in Pending(s, q.name)
      then s.(pending := s.pending[q.name := Pending(s, q.name) + [q.source]]) else s
    case UPDATE => Put(s, q)
    case INFO => Put(s, q).(pending := s.pending - {q.name})
    case _ => s
  }

  function Replies(s: State, q: Record): seq<Record> {
    match q.kind
    case QUERY =>
      if Records(s, q.name) != [] then Answers(Records(s, q.name), q.source)
      else if q.source in Pending(s, q.name) then []
      else [Record(EMPTY, q.name, q.source, NO_DETAILS)]
    case INFO => News(q, Pending(s, q.name))
    case _ => []
  }

  function After(qs: seq<Record>): State {
    if |qs| == 0 then State(map[], map[]) else Next(After(qs[..|qs| - 1]), qs[|qs| - 1])
  }

  function Before(qs: seq<Record>, i: nat): State
    requires i <= |qs|
  {
    After(qs[..i])
  }

  /** What the record taken `i`-th makes the handler send. */
  function RepliesTo(qs: seq<Record>, i: nat): seq<Record>
    requires i < |qs|
  {
    Replies(Before(qs, i), qs[i])
  }

  lemma BeforeNext(qs: seq<Record>, i: nat)
    requires i < |qs|
    ensures Before(qs, i + 1) == Next(Before(qs, i), qs[i])
  {
    assert qs[..i + 1][..i] == qs[..i];
  }

  // ----- The table is the history of updates and news -----

  predicate Tells(q: Record, n: GdpName) {
    q.name == n && (q.kind == UPDATE || q.kind == INFO)
  }

  function Told(qs: seq<Record>, n: GdpName): seq<Record> {
    if |qs| == 0 then []
    else Told(qs[..|qs| - 1], n) + if Tells(qs[|qs| - 1], n) then [qs[|qs| - 1]] else []
  }

  lemma {:induction false} TableIsHistory(qs: seq<Record>, n: GdpName)
    ensures Records(After(qs), n) == Told(qs, n)
  {
    if |qs| > 0 {
      TableIsHistory(qs[..|qs| - 1], n);
    }
  }

  /** Something was told about a name among the first `i` records. */
  predicate KnownBefore(qs: seq<Record>, i: nat, n: GdpName)
    requires i <= |qs|
  {
    exists j :: 0 <= j < i && Tells(qs[j], n)
  }

  lemma {:induction false} KnownMeansTold(qs: seq<Record>, i: nat, n: GdpName)
    requires i <= |qs|
    ensures Records(Before(qs, i), n) != [] <==> KnownBefore(qs, i, n)
    decreases i
  {
    if i > 0 {
      KnownMeansTold(qs, i - 1, n);
      BeforeNext(qs, i - 1);
    }
  }

  /** A query for a known name is answered by everything told about it so far, in order: one answer for each record,
      with that record's details. */
  lemma KnownNameGetsItsHistory(qs: seq<Record>, i: nat)
    requires i < |qs| && qs[i].kind == QUERY && KnownBefore(qs, i, qs[i].name)
    ensures var n := qs[i].name;
            && |RepliesTo(qs, i)| == |Told(qs[..i], n)| > 0
            && forall j :: 0 <= j < |Told(qs[..i], n)| ==>
                 && RepliesTo(qs, i)[j].kind == INFO && RepliesTo(qs, i)[j].name == n
                 && RepliesTo(qs, i)[j].source == qs[i].source
                 && RepliesTo(qs, i)[j].details == Told(qs[..i], n)[j].details
  {
    KnownMeansTold(qs, i, qs[i].name);
    TableIsHistory(qs[..i], qs[i].name);
    ToldAboutName(qs[..i], qs[i].name);
    forall j | 0 <= j < |Told(qs[..i], qs[i].name)| ensures Told(qs[..i], qs[i].name)[j].name == qs[i].name {
      assert Told(qs[..i], qs[i].name)[j] in Told(qs[..i], qs[i].name);
    }
  }

  /** Records other than queries and news make the handler send nothing. */
  lemma OthersAreSilent(qs: seq<Record>, i: nat)
    requires i < |qs| && qs[i].kind != QUERY && qs[i].kind != INFO
    ensures RepliesTo(qs, i) == []
  {
  }

  // ----- Who waits -----

  predicate Asks(q: Record, n: GdpName, x: GdpName) {
    q == Record(QUERY, n, x, q.details)
  }

  /** The record taken `i`-th asks for a name about which nothing had been told. */
  predicate AsksInVain(qs: seq<Record>, i: nat, n: GdpName, x: GdpName)
    requires i < |qs|
  {
    Asks(qs[i], n, x) && !KnownBefore(qs, i, n)
  }

  predicate AskedInVain(qs: seq<Record>, i: nat, n: GdpName, x: GdpName)
    requires i <= |qs|
  {
    exists j :: 0 <= j < i && AsksInVain(qs, j, n, x)
  }

  predicate IsNews(q: Record, n: GdpName) {
    q.kind == INFO && q.name == n
  }

  predicate NewsBefore(qs: seq<Record>, i: nat, n: GdpName)
    requires i <= |qs|
  {
    exists j :: 0 <= j < i && IsNews(qs[j], n)
  }

  lemma NewsIsKnown(qs: seq<Record>, i: nat, n: GdpName)
    requires i <= |qs| && NewsBefore(qs, i, n)
    ensures KnownBefore(qs, i, n)
  {
    var j :| 0 <= j < i && IsNews(qs[j], n);
    assert Tells(qs[j], n);
  }

  lemma PendingStep(s: State, q: Record, n: GdpName, x: GdpName)
    ensures x in Pending(Next(s, q), n) <==>
              !IsNews(q, n) &&
              (x in Pending(s, n) || (Asks(q, n, x) && Records(s, n) == []))
  {
  }

  lemma VainStep(qs: seq<Record>, i: nat, n: GdpName, x: GdpName)
    requires i < |qs|
    ensures AskedInVain(qs, i + 1, n, x) <==> AskedInVain(qs, i, n, x) || AsksInVain(qs, i, n, x)
    ensures NewsBefore(qs, i + 1, n) <==> NewsBefore(qs, i, n) || IsNews(qs[i], n)
  {
    hide AsksInVain;
  }

  /** In every run those pending for a name are who asked for it before anything was told, until the first news. */
  lemma {:induction false} PendingMeansAskedInVain(qs: seq<Record>, i: nat, n: GdpName, x: GdpName)
    requires i <= |qs|
    ensures x in Pending(Before(qs, i), n) <==> AskedInVain(qs, i, n, x) && !NewsBefore(qs, i, n)
    decreases i
  {
    if i > 0 {
      PendingMeansAskedInVain(qs, i - 1, n, x);
      BeforeNext(qs, i - 1);
      PendingStep(Before(qs, i - 1), qs[i - 1], n, x);
      KnownMeansTold(qs, i - 1, n);
      VainStep(qs, i - 1, n, x);
      if NewsBefore(qs, i - 1, n) {
        NewsIsKnown(qs, i - 1, n);
      }
      hide Before, Next, Pending, Records, AskedInVain, NewsBefore, KnownBefore;
    }
  }

  lemma {:induction false} NobodyWaitsTwice(qs: seq<Record>, n: GdpName)
    ensures NoDuplicates(Pending(After(qs), n))
  {
    if |qs| > 0 {
      NobodyWaitsTwice(qs[..|qs| - 1], n);
    }
  }

  /** A query for a name about which nothing was told is answered by one EMPTY record without details the first time
      that this asker makes it, and by nothing after that. */
  lemma UnknownNameReplies(qs: seq<Record>, i: nat)
    requires i < |qs| && qs[i].kind == QUERY && !KnownBefore(qs, i, qs[i].name)
    ensures var n, x := qs[i].name, qs[i].source;
            RepliesTo(qs, i) == if AskedInVain(qs, i, n, x) then []
                                else [Record(EMPTY, n, x, Details(None, None, None, None))]
  {
    var n, x := qs[i].name, qs[i].source;
    KnownMeansTold(qs, i, n);
    PendingMeansAskedInVain(qs, i, n, x);
    if NewsBefore(qs, i, n) {
      NewsIsKnown(qs, i, n);
    }
  }

  /** An asker is told EMPTY exactly at its first query for a name, if nothing had been told about it by then; so at
      most once in a run. */
  lemma OneEmptyEach(qs: seq<Record>, i: nat, n: GdpName, x: GdpName)
    requires i < |qs|
    ensures Record(EMPTY, n, x, NO_DETAILS) in RepliesTo(qs, i) <==>
            AsksInVain(qs, i, n, x) && !AskedInVain(qs, i, n, x)
  {
    KnownMeansTold(qs, i, n);
    PendingMeansAskedInVain(qs, i, n, x);
    if NewsBefore(qs, i, n) {
      NewsIsKnown(qs, i, n);
    }
  }

  /** The first news of a name answers everybody who asked before anything was told about it, each once, and leaves
      nobody waiting; later news answer nobody. */
  lemma NewsAnswersTheWaiting(qs: seq<Record>, i: nat, x: GdpName)
    requires i < |qs| && qs[i].kind == INFO
    ensures var q := qs[i];
            var answer := Record(INFO, q.name, x, q.details);
            && multiset(RepliesTo(qs, i))[answer] ==
                 (if AskedInVain(qs, i, q.name, x) && !NewsBefore(qs, i, q.name) then 1 else 0)
            && (forall r <- RepliesTo(qs, i) :: r.kind == INFO && r.name == q.name && r.details == q.details)
            && Pending(Before(qs, i + 1), q.name) == []
  {
    var q := qs[i];
    var askers := Pending(Before(qs, i), q.name);
    PendingMeansAskedInVain(qs, i, q.name, x);
    NobodyWaitsTwice(qs[..i], q.name);
    BeforeNext(qs, i);
    NewsOnce(q, askers, x);
  }

  lemma {:induction false} NewsOnce(q: Record, askers: seq<GdpName>, x: GdpName)
    requires NoDuplicates(askers)
    ensures multiset(News(q, askers))[Record(INFO, q.name, x, q.details)] == if x in askers then 1 else 0
  {
    if |askers| > 0 {
      var front, last := askers[..|askers| - 1], askers[|askers| - 1];
      NewsOnce(q, front, x);
      assert News(q, askers) == News(q, front) + [Record(INFO, q.name, last, q.details)];
      assert askers == front + [last];
      assert last !in front;
    }
  }

  /** Who asked for a name before anything was told about it, each once, in the order of their first queries. */
  function VainAskers(qs: seq<Record>, n: GdpName): seq<GdpName> {
    if |qs| == 0 then []
    else
      var i := |qs| - 1;
      var before := VainAskers(qs[..i], n);
      if AsksInVain(qs, i, n, qs[i].source) && qs[i].source !in before then before + [qs[i].source] else before
  }

  lemma AskInFront(qs: seq<Record>, i: nat, n: GdpName, x: GdpName)
    requires i < |qs|
    ensures AsksInVain(qs[..i + 1], i, n, x) <==> AsksInVain(qs, i, n, x)
  {
    assert KnownBefore(qs[..i + 1], i, n) <==> KnownBefore(qs, i, n);
  }

  lemma PendingGrows(s: State, q: Record, n: GdpName)
    ensures Pending(Next(s, q), n) ==
              if IsNews(q, n) then []
              else if Asks(q, n, q.source) && Records(s, n) == [] && q.source !in Pending(s, n)
              then Pending(s, n) + [q.source]
              else Pending(s, n)
  {
  }

  /** In every run those who wait for a name stand in the order in which they first asked in vain, until news come. */
  lemma {:induction false} PendingInOrder(qs: seq<Record>, i: nat, n: GdpName)
    requires i <= |qs|
    ensures Pending(Before(qs, i), n) == if NewsBefore(qs, i, n) then [] else VainAskers(qs[..i], n)
    decreases i
  {
    if i > 0 {
      var x := qs[i - 1].source;
      PendingInOrder(qs, i - 1, n);
      BeforeNext(qs, i - 1);
      PendingGrows(Before(qs, i - 1), qs[i - 1], n);
      KnownMeansTold(qs, i - 1, n);
      VainStep(qs, i - 1, n, x);
      AskInFront(qs, i - 1, n, x);
      assert qs[..i][..i - 1] == qs[..i - 1];
      if NewsBefore(qs, i - 1, n) {
        NewsIsKnown(qs, i - 1, n);
      }
      hide Before, Next, Pending, Records, NewsBefore, KnownBefore;
    }
  }

  /** The first news of a name go to those who asked in vain, in that order, with the news's details; later news go to
      nobody. */
  lemma NewsGoInOrder(qs: seq<Record>, i: nat)
    requires i < |qs| && qs[i].kind == INFO
    ensures var n, answers := qs[i].name, RepliesTo(qs, i);
            var askers := if NewsBefore(qs, i, n) then [] else VainAskers(qs[..i], n);
            && |answers| == |askers|
            && forall j :: 0 <= j < |askers| ==>
                 && answers[j].kind == INFO && answers[j].name == n
                 && answers[j].source == askers[j] && answers[j].details == qs[i].details
  {
    PendingInOrder(qs, i, qs[i].name);
  }

  /** Nobody is forgotten: if news of a name come after a query for it, the query was answered by then. */
  lemma NewsReachWhoAsked(qs: seq<Record>, i: nat, j: nat, n: GdpName, x: GdpName)
    requires i < j < |qs| && Asks(qs[i], n, x) && IsNews(qs[j], n)
    ensures exists k, r :: i <= k <= j && r in RepliesTo(qs, k) && r.kind == INFO && r.name == n && r.source == x
    decreases j - i
  {
    if KnownBefore(qs, i, n) {
      KnownNameGetsItsHistory(qs, i);
      assert RepliesTo(qs, i)[0] in RepliesTo(qs, i);
    } else {
      assert AsksInVain(qs, i, n, x);
      var k := FirstNews(qs, i, j, n);
      NewsAnswersTheWaiting(qs, k, x);
      assert AskedInVain(qs, k, n, x);
      assert Record(INFO, n, x, qs[k].details) in RepliesTo(qs, k);
    }
  }

  lemma {:induction false} ToldAboutName(qs: seq<Record>, n: GdpName)
    ensures forall r :: r in Told(qs, n) ==> r.name == n
  {
    if |qs| > 0 {
      ToldAboutName(qs[..|qs| - 1], n);
    }
  }

  lemma FirstNews(qs: seq<Record>, i: nat, j: nat, n: GdpName) returns (k: nat)
    requires i < j < |qs| && IsNews(qs[j], n) && !KnownBefore(qs, i, n) && qs[i].kind == QUERY
    ensures i < k <= j && IsNews(qs[k], n) && !NewsBefore(qs, k, n)
  {
    k := i + 1;
    while !IsNews(qs[k], n)
      invariant i < k <= j
      invariant forall m :: i < m < k ==> !IsNews(qs[m], n)
      decreases j - k
    {
      k := k + 1;
    }
  }

  /** `x` was sent something about `n` while the records from number `i` to before number `j` were taken. */
  ghost predicate Answered(qs: seq<Record>, i: nat, j: nat, n: GdpName, x: GdpName)
    requires i <= j <= |qs|
  {
    exists k, r :: i <= k < j && r in RepliesTo(qs, k) && r.kind == INFO && r.name == n && r.source == x
  }

  /** Something about a name is sent only as news of it, or to who asks for what is known. */
  lemma WhatAnswers(qs: seq<Record>, k: nat, r: Record)
    requires k < |qs| && r in RepliesTo(qs, k) && r.kind == INFO
    ensures IsNews(qs[k], r.name) || (Asks(qs[k], r.name, r.source) && KnownBefore(qs, k, r.name))
  {
    var q := qs[k];
    if q.kind == QUERY {
      KnownMeansTold(qs, k, q.name);
      TableIsHistory(qs[..k], q.name);
      ToldAboutName(qs[..k], q.name);
      var i :| 0 <= i < |RepliesTo(qs, k)| && RepliesTo(qs, k)[i] == r;
      assert Records(Before(qs, k), q.name)[i] in Told(qs[..k], q.name);
    }
  }

  /** By a given point of a run a query has been answered exactly when the name was known when it was asked for, or
      news of it came since, or it was asked for again when something had been told. */
  lemma AnsweredExactlyWhen(qs: seq<Record>, i: nat, j: nat, n: GdpName, x: GdpName)
    requires i < j <= |qs| && Asks(qs[i], n, x)
    ensures Answered(qs, i, j, n, x) <==>
              || KnownBefore(qs, i, n)
              || exists k :: i < k < j && (IsNews(qs[k], n) || (Asks(qs[k], n, x) && KnownBefore(qs, k, n)))
  {
    if Answered(qs, i, j, n, x) {
      var k, r :| i <= k < j && r in RepliesTo(qs, k) && r.kind == INFO && r.name == n && r.source == x;
      WhatAnswers(qs, k, r);
    } else if KnownBefore(qs, i, n) {
      KnownIsAnswered(qs, i, i, j, n, x);
    } else if k :| i < k < j && (IsNews(qs[k], n) || (Asks(qs[k], n, x) && KnownBefore(qs, k, n))) {
      if IsNews(qs[k], n) {
        NewsReachWhoAsked(qs, i, k, n, x);
      } else {
        KnownIsAnswered(qs, i, k, j, n, x);
      }
    }
  }

  lemma KnownIsAnswered(qs: seq<Record>, i: nat, k: nat, j: nat, n: GdpName, x: GdpName)
    requires i <= k < j <= |qs| && Asks(qs[k], n, x) && KnownBefore(qs, k, n)
    ensures Answered(qs, i, j, n, x)
  {
    KnownNameGetsItsHistory(qs, k);
    var r := RepliesTo(qs, k)[0];
    assert r in RepliesTo(qs, k);
  }

  /** An update is no news: who asked before it is left waiting, although the name is now known. */
  lemma UpdateLeavesThemWaiting(n: GdpName, x: GdpName, y: GdpName, details: Details)
    ensures var qs := [Record(QUERY, n, x, NO_DETAILS), Record(UPDATE, n, y, details)];
            RepliesTo(qs, 1) == [] && Records(After(qs), n) == [qs[1]] && Pending(After(qs), n) == [x]
  {
    var qs := [Record(QUERY, n, x, NO_DETAILS), Record(UPDATE, n, y, details)];
    assert qs[..1] == [qs[0]] && qs[..1][..0] == [];
    var asked := Next(State(map[], map[]), qs[0]);
    assert asked.table == map[] && Pending(asked, n) == [x];
    assert After(qs[..1]) == asked;
    assert After(qs) == Put(asked, qs[1]);
  }

  // ----- The handler -----

  /** `RoutingInformationBase`. */
  class RoutingInformationBase {
    var routingTable: map<GdpName, seq<Record>>

    constructor ()
      ensures routingTable == map[]
    {
      routingTable := map[];
    }

    method Put(key: GdpName, value: Record)
      modifies this
      ensures var before := if key in old(routingTable) then old(routingTable)[key] else [];
              routingTable == old(routingTable)[key := before + [value]]
    {
      if key in routingTable {
        routingTable := routingTable[key := routingTable[key] + [value]];
      } else {
        routingTable := routingTable[key := [value]];
        assert [] + [value] == [value];
      }
    }

    method Get(key: GdpName) returns (records: Option<seq<Record>>)
      ensures records == if key in routingTable then Some(routingTable[key]) else None
    {
      records := if key in routingTable then Some(routingTable[key]) else None;
    }
  }

  /** The loop of `local_rib_handler`, with everything it has sent. */
  class Handler {
    const store: RoutingInformationBase
    var pending: map<GdpName, seq<GdpName>>
    var sent: seq<Record>

    ghost function View(): State
      reads this, store
    {
      State(store.routingTable, pending)
    }

    /** A name in the table has records. */
    ghost predicate Valid()
      reads this, store
    {
      forall n :: n in store.routingTable ==> store.routingTable[n] != []
    }

    constructor ()
      ensures fresh(store) && Valid() && View() == After([]) && sent == []
    {
      store := new RoutingInformationBase();
      pending, sent := map[], [];
    }

    method OnQuery(query: Record)
      requires Valid() && query.kind == QUERY
      modifies this
      ensures Valid() && View() == Next(old(View()), query) && sent == old(sent) + Replies(old(View()), query)
    {
      var records := store.Get(query.name);
      if records.Some? {
        for i := 0 to |records.value|
          invariant pending == old(pending)
          invariant sent == old(sent) + Answers(records.value[..i], query.source)
        {
          var record := records.value[i];
          sent := sent + [Record(INFO, record.name, query.source, record.details)];
        }
        assert records.value[..|records.value|] == records.value;
      } else if query.name !in pending || query.source !in pending[query.name] {
        var waiting := if query.name in pending then pending[query.name] else [];
        pending := pending[query.name := waiting + [query.source]];
        sent := sent + [Record(EMPTY, query.name, query.source, NO_DETAILS)];
      }
    }

    method OnUpdate(query: Record)
      requires Valid() && query.kind == UPDATE
      modifies store
      ensures Valid() && View() == Next(old(View()), query) && sent == old(sent) + Replies(old(View()), query)
    {
      store.Put(query.name, query);
    }

    method OnInfo(query: Record)
      requires Valid() && query.kind == INFO
      modifies this, store
      ensures Valid() && View() == Next(old(View()), query) && sent == old(sent) + Replies(old(View()), query)
    {
      store.Put(query.name, query);
      if query.name in pending {
        var askers := pending[query.name];
        for i := 0 to |askers|
          invariant pending == old(pending) && store.routingTable == Next(old(View()), query).table
          invariant sent == old(sent) + News(query, askers[..i])
        {
          sent := sent + [Record(INFO, query.name, askers[i], query.details)];
        }
        assert askers[..|askers|] == askers;
      }
      pending := pending - {query.name};
    }
  }
}
