/**
 What the barrier gets done: from every state, an arrival sleeps or completes the round, a completed round or a
 terminate wakes everybody, and whoever is woken leaves.
 */
module BarrierRuns {
  import opened Barrier

  ghost predicate Goes(s: State, schedule: seq<Step>, s': State) {
    Feasible(SHIPPED, s, schedule) && Run(SHIPPED, s, schedule) == s'
  }

  lemma Stay(s: State)
    ensures Goes(s, [], s)
  {
  }

  lemma First(s: State, step: Step, next: State, rest: seq<Step>, s': State)
    requires Enabled(SHIPPED, s, step) && Apply(SHIPPED, s, step) == next && Goes(next, rest, s')
    ensures Goes(s, [step] + rest, s')
  {
    assert ([step] + rest)[0] == step && ([step] + rest)[1..] == rest;
  }

  lemma Two(s: State, a: Step, s1: State, b: Step, s2: State)
    requires Enabled(SHIPPED, s, a) && Apply(SHIPPED, s, a) == s1
    requires Enabled(SHIPPED, s1, b) && Apply(SHIPPED, s1, b) == s2
    ensures Goes(s, [a, b], s2)
  {
    hide Goes, Enabled, Apply;
    Stay(s2);
    First(s1, b, s2, [], s2);
    First(s, a, s1, [b] + [], s2);
    assert [a] + ([b] + []) == [a, b];
  }

  lemma Four(s: State, a: Step, s1: State, b: Step, s2: State, c: Step, s3: State, d: Step, s4: State)
    requires Enabled(SHIPPED, s, a) && Apply(SHIPPED, s, a) == s1
    requires Enabled(SHIPPED, s1, b) && Apply(SHIPPED, s1, b) == s2
    requires Enabled(SHIPPED, s2, c) && Apply(SHIPPED, s2, c) == s3
    requires Enabled(SHIPPED, s3, d) && Apply(SHIPPED, s3, d) == s4
    ensures Goes(s, [a, b, c, d], s4)
  {
    hide Goes, Enabled, Apply;
    Two(s2, c, s3, d, s4);
    First(s1, b, s2, [c, d], s4);
    First(s, a, s1, [b] + [c, d], s4);
    assert [a] + ([b] + [c, d]) == [a, b, c, d];
  }

  /** Thread `t` is replaced. */
  function With(s: State, t: Tid, th: Thread): State
    requires t < |s.threads|
  {
    s.(threads := s.threads[t := th])
  }


  predicate FreeAt(s: State, t: Tid, pc: Pc) { t < |s.threads| && s.threads[t].pc == pc && s.lock.Free? }

  /** An arrival that is not the last falls asleep in the current generation. */
  lemma ArrivalSleeps(s: State, t: Tid)
    requires FreeAt(s, t, Idle) && s.activated && 1 < s.count <= WORD
    ensures Goes(s, [Load(t), Arrive(t), Check(t), Sleep(t)],
                 With(s, t, s.threads[t].(pc := Asleep(s.generation), arrivals := s.threads[t].arrivals + 1)).(
                   count := s.count - 1))
  {
    hide Goes;
    var th, g := s.threads[t], s.generation;
    var arrived := th.(arrivals := th.arrivals + 1);
    var s1 := With(s, t, th.(pc := Entering));
    var s2 := With(s, t, arrived.(pc := Checking(g))).(count := s.count - 1, lock := HeldBy(t));
    var s3 := With(s2, t, arrived.(pc := Dozing(g)));
    var s4 := With(s, t, arrived.(pc := Asleep(g))).(count := s.count - 1);
    assert (s.count + WORD - 1) % WORD == s.count - 1;
    assert Apply(SHIPPED, s1, Arrive(t)).threads == s2.threads;
    assert Apply(SHIPPED, s3, Sleep(t)).threads == s4.threads;
    Four(s, Load(t), s1, Arrive(t), s2, Check(t), s3, Sleep(t), s4);
  }

  /** The last arrival starts the next generation, wakes everybody and leaves. */
  lemma LastArrivalWakesAll(s: State, t: Tid) returns (s': State)
    requires FreeAt(s, t, Idle) && s.activated && s.count == 1
    ensures Goes(s, [Load(t), Arrive(t)], s')
    ensures s'.count == s.original && s'.generation == (s.generation + 1) % WORD && s'.rounds == s.rounds + 1
    ensures s'.lock.Free? && s'.activated && |s'.threads| == |s.threads|
    ensures s'.threads[t] == Thread(Idle, s.threads[t].arrivals + 1, s.threads[t].departures + 1)
    ensures forall u | 0 <= u < |s.threads| && u != t :: s'.threads[u] == Rouse(s.threads[u])
  {
    hide Goes;
    var s1 := With(s, t, s.threads[t].(pc := Entering));
    s' := Apply(SHIPPED, s1, Arrive(t));
    assert (s.count + WORD - 1) % WORD == 0;
    Two(s, Load(t), s1, Arrive(t), s');
  }

  /** Whoever is awake again leaves when its generation is over or the barrier is terminated, and goes back to sleep
      otherwise. */
  lemma WokenLeaves(s: State, t: Tid, g: nat)
    requires FreeAt(s, t, Woken(g)) && (g != s.generation || !s.activated)
    ensures Goes(s, [Relock(t), Check(t)],
                 With(s, t, s.threads[t].(pc := Idle, departures := s.threads[t].departures + 1)))
  {
    hide Goes;
    var s1 := With(s, t, s.threads[t].(pc := Checking(g))).(lock := HeldBy(t));
    var s2 := With(s, t, s.threads[t].(pc := Idle, departures := s.threads[t].departures + 1));
    assert Apply(SHIPPED, s1, Check(t)).threads == s2.threads;
    Two(s, Relock(t), s1, Check(t), s2);
  }

  lemma SpuriousWakeUpSleeps(s: State, t: Tid, g: nat)
    requires FreeAt(s, t, Asleep(g)) && g == s.generation && s.activated
    ensures Goes(s, [Wake(t), Relock(t), Check(t), Sleep(t)], s)
  {
    hide Goes;
    var th := s.threads[t];
    var s1 := With(s, t, th.(pc := Woken(g)));
    var s2 := With(s, t, th.(pc := Checking(g))).(lock := HeldBy(t));
    var s3 := With(s, t, th.(pc := Dozing(g))).(lock := HeldBy(t));
    assert Apply(SHIPPED, s1, Relock(t)).threads == s2.threads;
    assert Apply(SHIPPED, s2, Check(t)).threads == s3.threads;
    assert Apply(SHIPPED, s3, Sleep(t)).threads == s.threads;
    Four(s, Wake(t), s1, Relock(t), s2, Check(t), s3, Sleep(t), s);
  }

  /** A terminate wakes everybody who sleeps, and afterwards an arrival returns at once. */
  lemma TerminateWakesAll(s: State, t: Tid) returns (s': State)
    requires FreeAt(s, t, Idle)
    ensures Goes(s, [Store(t), Lock(t), Unlock(t), Notify(t)], s')
    ensures s' == s.(activated := false, threads := s'.threads, fenced := true, terminated := true)
    ensures |s'.threads| == |s.threads| && s'.threads[t] == s.threads[t]
    ensures forall u | 0 <= u < |s.threads| :: s'.threads[u] == Rouse(s.threads[u])
    ensures Enabled(SHIPPED, s', Load(t)) && Apply(SHIPPED, s', Load(t)) == s'
  {
    hide Goes;
    var th := s.threads[t];
    var s1 := With(s, t, th.(pc := Stored)).(activated := false);
    var s2 := With(s1, t, th.(pc := Critical)).(lock := HeldBy(t));
    var s3 := With(s1, t, th.(pc := Fenced)).(fenced := true);
    s' := Apply(SHIPPED, s3, Notify(t));
    assert Apply(SHIPPED, s2, Unlock(t)).threads == s3.threads;
    Four(s, Store(t), s1, Lock(t), s2, Unlock(t), s3, Notify(t), s');
  }
}
