/**
  sgc_launch/time_bound_analyzer.py: the sliding window of latencies kept for each machine, and the scan that finds
  the measurements of the last few seconds in it.

  The window is the end of the machine's history, and the scan finds exactly what a filter of the whole history would,
  as long as the window holds it.
 */
module TimeBoundAnalyzer {
  datatype Stamp = Stamp(sec: int, nanosec: nat) {
    function Nanoseconds(): int {
      sec * 1_000_000_000 + nanosec
    }
  }

  datatype Sample = Sample(stamp: Stamp, latency: real)

  const WINDOW_LIMIT: nat := 5400
  const WINDOW_TRIM: nat := 2000

  // ----- The window -----

  /** A window after another sample: once it is too long its oldest samples are deleted. */
  function Push(window: seq<Sample>, s: Sample): seq<Sample> {
    var longer := window + [s];
    if |longer| > WINDOW_LIMIT then longer[WINDOW_TRIM..] else longer
  }

  function Window(history: seq<Sample>): seq<Sample> {
    if |history| == 0 then [] else Push(Window(history[..|history| - 1]), history[|history| - 1])
  }

  /** How much of a history of `n` samples the window holds. */
  function WindowLength(n: nat): nat {
    if n <= WINDOW_LIMIT then n else 3401 + (n - 5401) % 2000
  }

  lemma NextLength(n: nat)
    ensures WindowLength(n + 1) ==
            if WindowLength(n) + 1 > WINDOW_LIMIT then WindowLength(n) + 1 - WINDOW_TRIM else WindowLength(n) + 1
  {
    if n > WINDOW_LIMIT {
      var r := (n - 5401) % 2000;
      assert (n + 1 - 5401) % 2000 == (r + 1) % 2000;
    }
  }

  lemma SuffixGrows(history: seq<Sample>, n: nat)
    requires 0 < |history| && n < |history|
    ensures history[..|history| - 1][|history| - 1 - n..] + [history[|history| - 1]] == history[|history| - 1 - n..]
  {
  }

  lemma SuffixOfSuffix(history: seq<Sample>, n: nat, m: nat)
    requires m <= n <= |history|
    ensures history[|history| - n..][n - m..] == history[|history| - m..]
  {
  }

  /** In every run the window is the end of the history, and its length follows a saw-tooth from 3401 to 5400. */
  lemma {:induction false} WindowIsSuffix(history: seq<Sample>)
    ensures |Window(history)| == WindowLength(|history|) <= |history|
    ensures Window(history) == history[|history| - |Window(history)|..]
  {
    if |history| > 0 {
      var front := history[..|history| - 1];
      WindowIsSuffix(front);
      NextLength(|front|);
      hide WindowLength;
      var n := |Window(front)|;
      SuffixGrows(history, n);
      assert Window(front) + [history[|history| - 1]] == history[|history| - (n + 1)..];
      if n + 1 > WINDOW_LIMIT {
        SuffixOfSuffix(history, n + 1, n + 1 - WINDOW_TRIM);
      }
    }
  }

  lemma WindowLengthBounds(n: nat)
    ensures (if n < 3401 then n else 3401) <= WindowLength(n) <= 5400
  {
  }

  // ----- The scan -----

  predicate Within(now: Stamp, t: Stamp, duration: real) {
    (now.Nanoseconds() - t.Nanoseconds()) as real <= duration * 1000000000.0
  }

  /** The latencies of the longest end of the data that lies within the duration. */
  function Latest(data: seq<Sample>, duration: real, now: Stamp): seq<real> {
    if |data| == 0 || !Within(now, data[|data| - 1].stamp, duration) then []
    else Latest(data[..|data| - 1], duration, now) + [data[|data| - 1].latency]
  }

  /** All latencies that lie within the duration, in order. */
  function InDuration(data: seq<Sample>, duration: real, now: Stamp): seq<real> {
    if |data| == 0 then []
    else InDuration(data[..|data| - 1], duration, now) +
         if Within(now, data[|data| - 1].stamp, duration) then [data[|data| - 1].latency] else []
  }

  ghost predicate Chronological(data: seq<Sample>) {
    forall i, j :: 0 <= i <= j < |data| ==> data[i].stamp.Nanoseconds() <= data[j].stamp.Nanoseconds()
  }

  /** In seconds: a sample lies within the duration when it is not older than that. */
  lemma WithinSeconds(now: Stamp, t: Stamp, duration: real)
    ensures Within(now, t, duration) <==>
            (now.sec - t.sec) as real + (now.nanosec - t.nanosec) as real / 1000000000.0 <= duration
  {
    var age := now.Nanoseconds() - t.Nanoseconds();
    assert age == (now.sec - t.sec) * 1_000_000_000 + (now.nanosec - t.nanosec);
    assert age as real == (now.sec - t.sec) as real * 1000000000.0 + (now.nanosec - t.nanosec) as real;
  }

  lemma {:induction false} AllOld(data: seq<Sample>, duration: real, now: Stamp)
    requires forall i :: 0 <= i < |data| ==> !Within(now, data[i].stamp, duration)
    ensures InDuration(data, duration, now) == []
  {
    if |data| > 0 {
      AllOld(data[..|data| - 1], duration, now);
    }
  }

  lemma {:induction false} AllRecent(data: seq<Sample>, duration: real, now: Stamp)
    requires forall i :: 0 <= i < |data| ==> Within(now, data[i].stamp, duration)
    ensures |InDuration(data, duration, now)| == |data|
  {
    if |data| > 0 {
      AllRecent(data[..|data| - 1], duration, now);
    }
  }

  lemma {:induction false} SomeRecent(data: seq<Sample>, duration: real, now: Stamp)
    requires InDuration(data, duration, now) != []
    ensures exists i :: 0 <= i < |data| && Within(now, data[i].stamp, duration)
  {
    if !Within(now, data[|data| - 1].stamp, duration) {
      SomeRecent(data[..|data| - 1], duration, now);
    }
  }

  lemma YoungerIsWithin(now: Stamp, t: Stamp, u: Stamp, duration: real)
    requires t.Nanoseconds() <= u.Nanoseconds() && Within(now, t, duration)
    ensures Within(now, u, duration)
  {
  }

  /** The scan finds everything within the duration when time does not run backwards. */
  lemma {:induction false} ScanFindsAll(data: seq<Sample>, duration: real, now: Stamp)
    requires Chronological(data)
    ensures Latest(data, duration, now) == InDuration(data, duration, now)
  {
    if |data| > 0 {
      var front, last := data[..|data| - 1], data[|data| - 1];
      ScanFindsAll(front, duration, now);
      if !Within(now, last.stamp, duration) {
        forall i | 0 <= i < |front| ensures !Within(now, front[i].stamp, duration) {
          if Within(now, front[i].stamp, duration) {
            YoungerIsWithin(now, front[i].stamp, last.stamp, duration);
          }
        }
        AllOld(front, duration, now);
      }
    }
  }

  lemma {:induction false} InDurationConcat(a: seq<Sample>, b: seq<Sample>, duration: real, now: Stamp)
    ensures InDuration(a + b, duration, now) == InDuration(a, duration, now) + InDuration(b, duration, now)
  {
    if |b| == 0 {
      assert a + b == a;
    } else {
      InDurationConcat(a, b[..|b| - 1], duration, now);
      assert (a + b)[..|a + b| - 1] == a + b[..|b| - 1];
    }
  }

  lemma {:induction false} ShorterThanData(data: seq<Sample>, duration: real, now: Stamp)
    ensures |InDuration(data, duration, now)| <= |data|
  {
    if |data| > 0 {
      ShorterThanData(data[..|data| - 1], duration, now);
    }
  }

  /** If anything before a point in time lies within the duration, so does everything after it. */
  lemma RestIsRecent(a: seq<Sample>, b: seq<Sample>, duration: real, now: Stamp)
    requires Chronological(a + b) && InDuration(a, duration, now) != []
    ensures |InDuration(b, duration, now)| == |b|
  {
    SomeRecent(a, duration, now);
    var i :| 0 <= i < |a| && Within(now, a[i].stamp, duration);
    forall j | 0 <= j < |b| ensures Within(now, b[j].stamp, duration) {
      assert (a + b)[i] == a[i] && (a + b)[|a| + j] == b[j];
      YoungerIsWithin(now, a[i].stamp, b[j].stamp, duration);
    }
    AllRecent(b, duration, now);
  }

  lemma ChronologicalEnd(a: seq<Sample>, b: seq<Sample>)
    requires Chronological(a + b)
    ensures Chronological(b)
  {
    forall i, j | 0 <= i <= j < |b| ensures b[i].stamp.Nanoseconds() <= b[j].stamp.Nanoseconds() {
      assert (a + b)[|a| + i] == b[i] && (a + b)[|a| + j] == b[j];
    }
  }

  lemma {:induction false} ScanOfEnd(a: seq<Sample>, b: seq<Sample>, duration: real, now: Stamp)
    requires Chronological(a + b)
    ensures Latest(b, duration, now) == InDuration(a + b, duration, now) <==> |InDuration(a + b, duration, now)| <= |b|
  {
    ChronologicalEnd(a, b);
    ScanFindsAll(b, duration, now);
    InDurationConcat(a, b, duration, now);
    ShorterThanData(b, duration, now);
    if InDuration(a, duration, now) != [] {
      RestIsRecent(a, b, duration, now);
    } else {
      assert [] + InDuration(b, duration, now) == InDuration(b, duration, now);
    }
    hide *;
  }

  lemma SplitAt<A>(s: seq<A>, n: nat)
    requires n <= |s|
    ensures s == s[..n] + s[n..]
  {
  }

  /** The scan of the window finds exactly the measurements of the whole history that lie within the duration if and
      only if there are no more of them than the window holds; so always when there are at most 3401. */
  lemma WindowScanIsHistoryFilter(history: seq<Sample>, duration: real, now: Stamp)
    requires Chronological(history)
    ensures Latest(Window(history), duration, now) == InDuration(history, duration, now) <==>
            |InDuration(history, duration, now)| <= |Window(history)|
    ensures |InDuration(history, duration, now)| <= 3401 ==>
              Latest(Window(history), duration, now) == InDuration(history, duration, now)
  {
    WindowIsSuffix(history);
    WindowLengthBounds(|history|);
    ShorterThanData(history, duration, now);
    var n := |history| - |Window(history)|;
    SplitAt(history, n);
    hide *;
    ScanOfEnd(history[..n], history[n..], duration, now);
  }

  /** A burst of more than 5400 samples with one stamp: all lie within any duration, and no window holds them. */
  lemma BurstIsNotHeld(history: seq<Sample>, duration: real)
    requires |history| > WINDOW_LIMIT && duration >= 0.0
    requires forall i :: 0 <= i < |history| ==> history[i].stamp == history[0].stamp
    ensures var now := history[0].stamp;
            && |InDuration(history, duration, now)| == |history| > |Window(history)|
            && Latest(Window(history), duration, now) != InDuration(history, duration, now)
  {
    var now := history[0].stamp;
    AllRecent(history, duration, now);
    WindowIsSuffix(history);
    WindowLengthBounds(|history|);
    WindowScanIsHistoryFilter(history, duration, now);
    hide *;
  }

  /** Measured from its own last sample, a window has something to report exactly when the duration is not negative. */
  lemma SomethingToReport(history: seq<Sample>, duration: real)
    requires |history| > 0
    ensures var w := Window(history);
            |w| > 0 && w[|w| - 1] == history[|history| - 1] &&
            (Latest(w, duration, w[|w| - 1].stamp) != [] <==> duration >= 0.0)
  {
    WindowIsSuffix(history);
    WindowLengthBounds(|history|);
  }

  // ----- The analyzer -----

  class Analyzer {
    const latencyWindow: real
    var latencySlidingWindow: map<string, seq<Sample>>
    /** Every sample received, by machine. */
    ghost var history: map<string, seq<Sample>>

    ghost predicate Valid()
      reads this
    {
      && latencySlidingWindow.Keys == history.Keys
      && forall k :: k in history ==> |history[k]| > 0 && latencySlidingWindow[k] == Window(history[k])
    }

    constructor (latencyWindow: real)
      ensures Valid() && this.latencyWindow == latencyWindow && history == map[]
    {
      this.latencyWindow, latencySlidingWindow, history := latencyWindow, map[], map[];
    }

    method LatencyTopicCallback(identity: string, sample: Sample)
      requires Valid()
      modifies this
      ensures Valid()
      ensures var past := if identity in old(history) then old(history)[identity] else [];
              history == old(history)[identity := past + [sample]]
    {
      ghost var past := if identity in history then history[identity] else [];
      if identity !in latencySlidingWindow {
        latencySlidingWindow := latencySlidingWindow[identity := []];
      }
      latencySlidingWindow := latencySlidingWindow[identity := latencySlidingWindow[identity] + [sample]];
      if |latencySlidingWindow[identity]| > WINDOW_LIMIT {
        latencySlidingWindow := latencySlidingWindow[identity := latencySlidingWindow[identity][WINDOW_TRIM..]];
      }
      assert (past + [sample])[..|past|] == past;
      history := history[identity := past + [sample]];
    }

    /** The latencies that the next profile of a machine is made from. */
    method Measurements(identity: string) returns (latencies: seq<real>)
      requires Valid() && identity in latencySlidingWindow
      ensures var h := history[identity];
              var now := h[|h| - 1].stamp;
              && latencies == Latest(Window(h), latencyWindow, now)
              && (Chronological(h) && |InDuration(h, latencyWindow, now)| <= 3401 ==>
                    latencies == InDuration(h, latencyWindow, now))
    {
      var window := latencySlidingWindow[identity];
      SomethingToReport(history[identity], latencyWindow);
      ghost var now := window[|window| - 1].stamp;
      if Chronological(history[identity]) {
        WindowScanIsHistoryFilter(history[identity], latencyWindow, now);
      }
      latencies := GetLatestMeasurements(window, latencyWindow, window[|window| - 1].stamp);
    }
  }

  function Reversed(s: seq<real>): (r: seq<real>)
    ensures |r| == |s|
  {
    seq(|s|, i requires 0 <= i < |s| => s[|s| - 1 - i])
  }

  /** `get_latest_measurements`: newest first, then turned round. */
  method GetLatestMeasurements(data: seq<Sample>, duration: real, now: Stamp) returns (result: seq<real>)
    ensures result == Latest(data, duration, now)
  {
    var latest := [];
    var i := |data|;
    assert data[..i] == data;
    while i > 0
      invariant 0 <= i <= |data|
      invariant Latest(data[..i], duration, now) + Reversed(latest) == Latest(data, duration, now)
    {
      var s := data[i - 1];
      if !Within(now, s.stamp, duration) {
        break;
      }
      assert data[..i][..i - 1] == data[..i - 1];
      assert Reversed(latest + [s.latency]) == [s.latency] + Reversed(latest);
      latest := latest + [s.latency];
      i := i - 1;
    }
    return Reversed(latest);
  }
}
