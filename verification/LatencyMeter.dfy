/**
 The latency meter: start times and the end times of each channel wait in FIFOs, and an update takes one frame
 when its start and all its ends have arrived. Pushes and updates of different threads interleave; an update
 runs under the lock.
 */
module LatencyMeter {
  import opened Wrappers

  // ---------------------------------------------------------------- frames by index

  /** Everything pushed so far: frame number k is the k-th start with the k-th end of each channel. */
  datatype History = History(starts: seq<int>, ends: map<string, seq<int>>)

  predicate Ready(h: History, k: nat) {
    k < |h.starts| && forall c :: c in h.ends ==> k < |h.ends[c]|
  }

  /** The latest end of a frame, and never before time zero. */
  predicate IsLatest(h: History, k: nat, m: int)
    requires Ready(h, k)
  {
    && m >= 0 && (forall c :: c in h.ends ==> h.ends[c][k] <= m)
    && (m == 0 || exists c :: c in h.ends && h.ends[c][k] == m)
  }

  lemma {:induction false} LatestExists(h: History, k: nat, channels: set<string>) returns (m: int)
    requires Ready(h, k) && channels <= h.ends.Keys
    ensures m >= 0 && (forall c :: c in channels ==> h.ends[c][k] <= m)
    ensures m == 0 || exists c :: c in channels && h.ends[c][k] == m
  {
    if channels == {} {
      m := 0;
    } else {
      var c :| c in channels;
      m := LatestExists(h, k, channels - {c});
      m := if h.ends[c][k] > m then h.ends[c][k] else m;
    }
  }

  ghost function Latest(h: History, k: nat): (m: int)
    requires Ready(h, k)
    ensures IsLatest(h, k, m)
  {
    assert exists m :: IsLatest(h, k, m) by {
      var m := LatestExists(h, k, h.ends.Keys);
      assert IsLatest(h, k, m);
    }
    var m :| IsLatest(h, k, m);
    m
  }

  lemma LatestIs(h: History, k: nat, m: int)
    requires Ready(h, k) && IsLatest(h, k, m)
    ensures Latest(h, k) == m
  {
  }

  ghost predicate WellTimed(h: History, k: nat)
    requires Ready(h, k)
  {
    h.starts[k] <= Latest(h, k)
  }

  ghost predicate Completable(h: History, k: nat) { Ready(h, k) && WellTimed(h, k) }

  ghost predicate AllCompletable(h: History, n: nat) {
    forall k :: 0 <= k < n ==> Completable(h, k)
  }

  /** The number of frames before the first that cannot be completed. */
  ghost function Lead(h: History, k: nat := 0): (n: nat)
    ensures k <= n && !Completable(h, n) && forall j :: k <= j < n ==> Completable(h, j)
    decreases |h.starts| - k
  {
    if k < |h.starts| && Completable(h, k) then Lead(h, k + 1) else k
  }

  lemma LeadIs(h: History, n: nat)
    requires AllCompletable(h, n) && !Completable(h, n)
    ensures Lead(h) == n
  {
  }

  /** The fewest samples of any source. */
  predicate IsFewest(h: History, n: nat) {
    && n <= |h.starts| && (forall c :: c in h.ends ==> n <= |h.ends[c]|)
    && (n == |h.starts| || exists c :: c in h.ends && n == |h.ends[c]|)
  }

  /** All the frames that have arrived are counted exactly when none of them ends before it starts. */
  lemma LeadIsFewest(h: History, n: nat)
    requires IsFewest(h, n)
    ensures Lead(h) == n <==> forall k :: 0 <= k < n ==> WellTimed(h, k)
    ensures Lead(h) <= n
  {
    assert !Ready(h, n);
    assert Lead(h) > n ==> Completable(h, n);
    if forall k :: 0 <= k < n ==> WellTimed(h, k) {
      assert forall k :: 0 <= k < n ==> WellTimed(h, k) && Completable(h, k);
      LeadIs(h, n);
    }
    if Lead(h) == n {
      forall k | 0 <= k < n
        ensures WellTimed(h, k)
      {
        assert Completable(h, k);
      }
    }
  }

  /** A frame that ends before it starts is never counted, and holds up those behind it. */
  lemma EarlyEndIsStuck()
    ensures var h := History([5, 6], map["a" := [3, 9]]); IsFewest(h, 2) && Lead(h) == 0
  {
    var h := History([5, 6], map["a" := [3, 9]]);
    assert h.ends["a"][0] == 3;
    LatestIs(h, 0, 3);
    assert !Completable(h, 0);
  }

  ghost function Latency(h: History, k: nat): int
    requires Ready(h, k)
  {
    Latest(h, k) - h.starts[k]
  }

  /** The latencies of the frames from `a` up to `b`. */
  ghost function Total(h: History, a: nat, b: nat): (s: int)
    requires AllCompletable(h, b)
    ensures s >= 0
  {
    if a >= b then 0
    else
      assert Completable(h, b - 1);
      Total(h, a, b - 1) + Latency(h, b - 1)
  }

  // ---------------------------------------------------------------- one more sample

  datatype Sample = Start(time: int) | End(channel: string, time: int)

  predicate Known(h: History, s: Sample) { s.End? ==> s.channel in h.ends }

  function Pushed(h: History, s: Sample): History
    requires Known(h, s)
  {
    match s
    case Start(time) => h.(starts := h.starts + [time])
    case End(channel, time) => h.(ends := h.ends[channel := h.ends[channel] + [time]])
  }

  lemma FramesStay(h: History, s: Sample, k: nat)
    requires Known(h, s) && Ready(h, k)
    ensures Ready(Pushed(h, s), k) && Latest(Pushed(h, s), k) == Latest(h, k)
    ensures Completable(Pushed(h, s), k) <==> Completable(h, k)
  {
    var g, m := Pushed(h, s), Latest(h, k);
    assert forall c :: c in h.ends ==> g.ends[c][k] == h.ends[c][k];
    if m != 0 {
      var c :| c in h.ends && h.ends[c][k] == m;
      assert g.ends[c][k] == m;
    }
    LatestIs(g, k, m);
  }

  /** A sample completes at most one more frame. */
  lemma LeadGrowsByOne(h: History, s: Sample)
    requires Known(h, s)
    ensures Lead(h) <= Lead(Pushed(h, s)) <= Lead(h) + 1
  {
    var g, n := Pushed(h, s), Lead(h);
    forall k | 0 <= k < n
      ensures Completable(g, k)
    {
      assert Completable(h, k);
      FramesStay(h, s, k);
    }
    if Ready(h, n) {
      FramesStay(h, s, n);
      LeadIs(g, n);
    } else if Completable(g, n) {
      NotTwice(h, s, n);
      LeadIs(g, n + 1);
    } else {
      LeadIs(g, n);
    }
  }

  lemma NotTwice(h: History, s: Sample, n: nat)
    requires Known(h, s) && !Ready(h, n)
    ensures !Ready(Pushed(h, s), n + 1)
  {
    var g := Pushed(h, s);
    if s.Start? {
      assert g.ends == h.ends;
    } else if n < |h.starts| {
      var c :| c in h.ends && n >= |h.ends[c]|;
      assert |g.ends[c]| <= n + 1;
    }
  }

  lemma {:induction false} TotalStays(h: History, s: Sample, a: nat, b: nat)
    requires Known(h, s) && AllCompletable(h, b)
    ensures AllCompletable(Pushed(h, s), b) && Total(Pushed(h, s), a, b) == Total(h, a, b)
    decreases b
  {
    forall k | 0 <= k < b
      ensures Completable(Pushed(h, s), k)
    {
      assert Completable(h, k);
      FramesStay(h, s, k);
    }
    if a < b {
      assert Completable(h, b - 1);
      FramesStay(h, s, b - 1);
      TotalStays(h, s, a, b - 1);
    }
  }

  // ---------------------------------------------------------------- the meter

  class Meter {
    const capacity: nat
    var starts: seq<int>
    var ends: map<string, seq<int>>
    var count: nat
    var sum: int

    ghost var history: History
    ghost var done: nat     // frames taken
    ghost var cleared: nat  // of those, how many before the last clear

    /** The FIFOs hold what is left of the history; count and sum are those of the frames since the last clear. */
    ghost predicate Valid()
      reads this
    {
      && cleared <= done && AllCompletable(history, done)
      && done <= |history.starts| && starts == history.starts[done..]
      && ends.Keys == history.ends.Keys
      && (forall c :: c in ends ==> done <= |history.ends[c]| && ends[c] == history.ends[c][done..])
      && count == done - cleared && sum == Total(history, cleared, done)
    }

    constructor (channels: set<string>, listLength: nat)
      requires listLength > 0
      ensures Valid() && capacity == listLength - 1 && count == 0 && done == 0 && cleared == 0
      ensures history == History([], map c | c in channels :: [])
    {
      capacity := listLength - 1;
      starts, ends := [], map c | c in channels :: [];
      count, sum := 0, 0;
      history, done, cleared := History([], map c | c in channels :: []), 0, 0;
    }

    predicate Full(s: Sample)
      requires s.End? ==> s.channel in ends
      reads this
    {
      capacity <= if s.Start? then |starts| else |ends[s.channel]|
    }

    method Push(s: Sample)
      requires Valid() && Known(history, s) && !Full(s)
      modifies this
      ensures Valid() && history == Pushed(old(history), s) && done == old(done) && cleared == old(cleared)
    {
      ghost var h := history;
      match s {
        case Start(time) => starts := starts + [time];
        case End(channel, time) => ends := ends[channel := ends[channel] + [time]];
      }
      TotalStays(h, s, cleared, done);
      history := Pushed(h, s);
    }

    /** The latest of the first ends, unless a channel has none yet. */
    method LatestEnd() returns (latest: Option<int>)
      requires Valid() && starts != []
      ensures latest.Some? <==> Ready(history, done)
      ensures latest.Some? ==> latest.value == Latest(history, done)
    {
      var end := 0;
      var left := ends.Keys;
      while left != {}
        invariant left <= ends.Keys && end >= 0
        invariant forall c :: c in ends && c !in left ==> done < |history.ends[c]| && history.ends[c][done] <= end
        invariant end == 0 || exists c :: c in ends && c !in left && history.ends[c][done] == end
      {
        var c :| c in left;
        if ends[c] == [] { return None; }
        if end < ends[c][0] { end := ends[c][0]; }
        left := left - {c};
      }
      LatestIs(history, done, end);
      return Some(end);
    }

    method PopAll()
      requires forall c :: c in ends ==> ends[c] != []
      modifies this`ends
      ensures ends.Keys == old(ends).Keys && forall c :: c in ends ==> ends[c] == old(ends)[c][1..]
    {
      var left := ends.Keys;
      while left != {}
        invariant left <= ends.Keys == old(ends).Keys
        invariant forall c :: c in ends ==> ends[c] == if c in left then old(ends)[c] else old(ends)[c][1..]
      {
        var c :| c in left;
        ends := ends[c := ends[c][1..]];
        left := left - {c};
      }
    }

    /** Takes the next frame if it can be completed, and changes nothing otherwise. */
    method UpdateLatency()
      requires Valid()
      modifies this
      ensures Valid() && history == old(history) && cleared == old(cleared)
      ensures done == old(done) + if Completable(history, old(done)) then 1 else 0
    {
      if starts == [] { return; }
      var latest := LatestEnd();
      if latest.None? { return; }
      var start := starts[0];
      if start > latest.value { return; }
      sum := sum + (latest.value - start);
      count := count + 1;
      starts := starts[1..];
      PopAll();
      done := done + 1;
    }

    /** The average over the frames since the last clear. */
    method GetLatency(clear: bool) returns (latency: Option<int>)
      requires Valid()
      modifies this`count, this`sum, this`cleared
      ensures Valid() && cleared == if clear then done else old(cleared)
      ensures latency == if old(cleared) == done then None
                         else Some(Total(history, old(cleared), done) / (done - old(cleared)))
    {
      if count == 0 {
        if clear { cleared := done; }
        return None;
      }
      latency := Some(sum / count);
      if clear {
        sum, count, cleared := 0, 0, done;
      }
    }
  }

  // ---------------------------------------------------------------- every interleaving

  /** A sample is one push and, some time later, one update. */
  datatype Step = Push(sample: Sample) | Update | Query(clear: bool)

  predicate KnownChannels(channels: set<string>, steps: seq<Step>) {
    forall i :: 0 <= i < |steps| && steps[i].Push? && steps[i].sample.End? ==> steps[i].sample.channel in channels
  }

  ghost function HistoryOf(channels: set<string>, steps: seq<Step>): (h: History)
    requires KnownChannels(channels, steps)
    ensures h.ends.Keys == channels
  {
    if steps == [] then History([], map c | c in channels :: [])
    else
      var before, last := HistoryOf(channels, steps[..|steps| - 1]), steps[|steps| - 1];
      if last.Push? then Pushed(before, last.sample) else before
  }

  /** The pushes whose update has not run yet. */
  function Pending(steps: seq<Step>): nat {
    if steps == [] then 0
    else
      var before := Pending(steps[..|steps| - 1]);
      match steps[|steps| - 1]
      case Push(_) => before + 1
      case Update => if before > 0 then before - 1 else 0
      case Query(_) => before
  }

  /** The frames taken: each update takes one more if it is completable by then. */
  ghost function DoneOf(channels: set<string>, steps: seq<Step>): nat
    requires KnownChannels(channels, steps)
  {
    if steps == [] then 0
    else
      var rest := steps[..|steps| - 1];
      var before := DoneOf(channels, rest);
      if steps[|steps| - 1].Update? && Completable(HistoryOf(channels, rest), before) then before + 1 else before
  }

  /** The frames taken by the last query that clears. */
  ghost function ClearedOf(channels: set<string>, steps: seq<Step>): nat
    requires KnownChannels(channels, steps)
  {
    if steps == [] then 0
    else
      var rest := steps[..|steps| - 1];
      if steps[|steps| - 1] == Query(true) then DoneOf(channels, rest) else ClearedOf(channels, rest)
  }

  /** Step number `i` pushes a sample while the FIFO of its source is full. */
  ghost predicate Overflows(channels: set<string>, steps: seq<Step>, i: nat, listLength: nat)
    requires KnownChannels(channels, steps) && i < |steps|
  {
    && steps[i].Push?
    && var h := HistoryOf(channels, steps[..i]);
       var arrived := if steps[i].sample.Start? then |h.starts| else |h.ends[steps[i].sample.channel]|;
       arrived - DoneOf(channels, steps[..i]) >= listLength - 1
  }

  /** The frames taken are the leading completable ones, but for the pending updates. */
  lemma {:induction false} DoneTracksLead(channels: set<string>, steps: seq<Step>)
    requires KnownChannels(channels, steps)
    ensures AllCompletable(HistoryOf(channels, steps), DoneOf(channels, steps))
    ensures DoneOf(channels, steps) <= Lead(HistoryOf(channels, steps)) <= DoneOf(channels, steps) + Pending(steps)
    ensures ClearedOf(channels, steps) <= DoneOf(channels, steps)
  {
    hide Completable, Pushed;
    if steps != [] {
      var n := |steps| - 1;
      var rest := steps[..n];
      DoneTracksLead(channels, rest);
      var h, done := HistoryOf(channels, rest), DoneOf(channels, rest);
      if steps[n].Push? {
        LeadGrowsByOne(h, steps[n].sample);
        TotalStays(h, steps[n].sample, 0, done);
      } else if steps[n].Update? {
        LeadCovers(h, DoneOf(channels, steps));
      }
    }
  }

  /** When no update is pending, all the frames that have arrived were taken exactly when none of them ends before
      it starts. */
  lemma AllFramesTaken(channels: set<string>, steps: seq<Step>, n: nat)
    requires KnownChannels(channels, steps) && Pending(steps) == 0 && IsFewest(HistoryOf(channels, steps), n)
    ensures DoneOf(channels, steps) == n <==> forall k :: 0 <= k < n ==> WellTimed(HistoryOf(channels, steps), k)
  {
    DoneTracksLead(channels, steps);
    LeadIsFewest(HistoryOf(channels, steps), n);
  }

  /** What a query says after these steps: the average latency of the frames since the last clear. */
  ghost function Average(channels: set<string>, steps: seq<Step>): Option<int>
    requires KnownChannels(channels, steps)
  {
    DoneTracksLead(channels, steps);
    var cleared, done := ClearedOf(channels, steps), DoneOf(channels, steps);
    if cleared == done then None else Some(Total(HistoryOf(channels, steps), cleared, done) / (done - cleared))
  }

  ghost function Answers(channels: set<string>, steps: seq<Step>): seq<Option<int>>
    requires KnownChannels(channels, steps)
  {
    if steps == [] then []
    else
      var rest := steps[..|steps| - 1];
      Answers(channels, rest) + if steps[|steps| - 1].Query? then [Average(channels, rest)] else []
  }

  /** The meter is where these steps lead. */
  ghost predicate Follows(meter: Meter, channels: set<string>, steps: seq<Step>)
    requires KnownChannels(channels, steps)
    reads meter
  {
    && meter.Valid() && meter.history == HistoryOf(channels, steps)
    && meter.done == DoneOf(channels, steps) && meter.cleared == ClearedOf(channels, steps)
  }

  /** What one more step adds to what the steps so far say. */
  lemma OneMoreStep(channels: set<string>, before: seq<Step>, step: Step)
    requires KnownChannels(channels, before) && KnownChannels(channels, before + [step])
    ensures var steps, h, done := before + [step], HistoryOf(channels, before), DoneOf(channels, before);
      && Known(h, if step.Push? then step.sample else Start(0))
      && HistoryOf(channels, steps) == (if step.Push? then Pushed(h, step.sample) else h)
      && DoneOf(channels, steps) == done + (if step.Update? && Completable(h, done) then 1 else 0)
      && ClearedOf(channels, steps) == (if step == Query(true) then done else ClearedOf(channels, before))
      && Answers(channels, steps) ==
         Answers(channels, before) + (if step.Query? then [Average(channels, before)] else [])
  {
    hide Completable, Pushed, Average;
    assert (before + [step])[..|before|] == before && (before + [step])[|before|] == step;
  }

  /** One more step of any thread. */
  method Take(meter: Meter, channels: set<string>, ghost before: seq<Step>, step: Step)
    returns (overflow: bool, answer: seq<Option<int>>)
    requires KnownChannels(channels, before) && KnownChannels(channels, before + [step])
    requires Follows(meter, channels, before)
    modifies meter
    ensures overflow <==> Overflows(channels, before + [step], |before|, meter.capacity + 1)
    ensures !overflow ==> Follows(meter, channels, before + [step])
    ensures !overflow ==> Answers(channels, before + [step]) == Answers(channels, before) + answer
  {
    OneMoreStep(channels, before, step);
    hide Completable, Total, AllCompletable, Pushed, HistoryOf, DoneOf, ClearedOf, Answers;
    overflow, answer := false, [];
    assert (before + [step])[..|before|] == before;
    match step {
      case Push(sample) =>
        if meter.Full(sample) {
          overflow := true;
        } else {
          meter.Push(sample);
        }
      case Update =>
        meter.UpdateLatency();
      case Query(clear) =>
        var latency := meter.GetLatency(clear);
        answer := [latency];
    }
  }

  /** The meter over any interleaving. It overflows exactly when some push finds the FIFO of its source full;
      otherwise count and sum are those of the frames taken since the last clear, and every query got their
      average. */
  method Replay(channels: set<string>, listLength: nat, steps: seq<Step>)
    returns (overflow: bool, count: nat, sum: int, answers: seq<Option<int>>)
    requires listLength > 0 && KnownChannels(channels, steps)
    ensures overflow <==> exists i :: 0 <= i < |steps| && Overflows(channels, steps, i, listLength)
    ensures !overflow ==>
              var h, cleared, done := HistoryOf(channels, steps), ClearedOf(channels, steps), DoneOf(channels, steps);
              && cleared <= done && AllCompletable(h, done)
              && count == done - cleared && sum == Total(h, cleared, done) && answers == Answers(channels, steps)
  {
    hide HistoryOf, DoneOf, ClearedOf, Answers, Overflows, Follows, Total, AllCompletable;
    var meter := new Meter(channels, listLength);
    overflow, count, sum, answers := false, 0, 0, [];
    FollowsNothing(meter, channels);
    assert steps[..0] == [];
    for i := 0 to |steps|
      invariant fresh(meter) && meter.capacity == listLength - 1
      invariant KnownChannels(channels, steps[..i]) && Follows(meter, channels, steps[..i])
      invariant answers == Answers(channels, steps[..i])
      invariant forall j :: 0 <= j < i ==> !Overflows(channels, steps, j, listLength)
    {
      assert steps[..i + 1] == steps[..i] + [steps[i]];
      SameOverflow(channels, steps, i, listLength);
      var answer;
      overflow, answer := Take(meter, channels, steps[..i], steps[i]);
      if overflow { return; }
      answers := answers + answer;
    }
    assert steps[..|steps|] == steps;
    FollowsToTheEnd(meter, channels, steps);
    count, sum := meter.count, meter.sum;
  }

  lemma FollowsNothing(meter: Meter, channels: set<string>)
    requires meter.Valid() && meter.history == History([], map c | c in channels :: [])
    requires meter.done == meter.cleared == 0
    ensures Follows(meter, channels, []) && Answers(channels, []) == []
  {
  }

  lemma FollowsToTheEnd(meter: Meter, channels: set<string>, steps: seq<Step>)
    requires KnownChannels(channels, steps) && Follows(meter, channels, steps)
    ensures var h, cleared, done := HistoryOf(channels, steps), ClearedOf(channels, steps), DoneOf(channels, steps);
      && cleared <= done && AllCompletable(h, done)
      && meter.count == done - cleared && meter.sum == Total(h, cleared, done)
  {
  }

  lemma SameOverflow(channels: set<string>, steps: seq<Step>, i: nat, listLength: nat)
    requires KnownChannels(channels, steps) && i < |steps|
    ensures KnownChannels(channels, steps[..i + 1])
    ensures Overflows(channels, steps, i, listLength) <==> Overflows(channels, steps[..i + 1], i, listLength)
  {
    assert steps[..i + 1][..i] == steps[..i];
  }

  lemma LeadCovers(h: History, n: nat)
    requires AllCompletable(h, n)
    ensures n <= Lead(h)
  {
  }
}
