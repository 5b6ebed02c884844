/**
 The barrier while nobody terminates it: with exactly as many threads as the barrier counts, no thread
 leaves round k before every thread has arrived at round k. Also, why terminate needs its critical section.
 */
module BarrierRounds {
  import opened Barrier

  predicate Waiting(pc: Pc) { pc.Checking? || pc.Dozing? || pc.Asleep? || pc.Woken? }

  /** Where thread `t` is with respect to the round in progress. */
  predicate InStep(s: State, t: Tid)
    requires t < |s.threads|
  {
    var th := s.threads[t];
    && s.rounds <= th.arrivals <= s.rounds + 1
    && (Waiting(th.pc) ==> th.arrivals == th.departures + 1 && th.pc.generation == th.departures % WORD)
    && (!Waiting(th.pc) ==> th.arrivals == th.departures)
    && th.departures <= s.rounds
    && (th.pc.Dozing? || th.pc.Asleep? ==> th.departures == s.rounds)
  }

  /** The threads that have arrived in the round in progress. */
  function Arrived(s: State): set<Tid> {
    set t | 0 <= t < |s.threads| && s.threads[t].arrivals == s.rounds + 1
  }

  ghost predicate RoundInv(s: State) {
    && 0 < s.original == |s.threads| < WORD
    && s.generation == s.rounds % WORD
    && s.count >= 1 && s.count + |Arrived(s)| == s.original
    && forall t | 0 <= t < |s.threads| :: InStep(s, t)
  }

  /** Kept by every step: the part about rounds lasts until somebody terminates. */
  ghost predicate Inv(s: State) { WakeInv(s) && (s.activated ==> RoundInv(s)) }

  function Range(n: nat): (r: set<Tid>)
    ensures |r| == n && forall t: Tid :: t in r <==> t < n
  {
    if n == 0 then {} else Range(n - 1) + {n - 1}
  }

  /** A set of as many threads as there are is all of them. */
  lemma SubsetOfAll(a: set<Tid>, n: nat)
    requires a <= Range(n) && |a| == n
    ensures a == Range(n)
  {
    var rest := Range(n) - a;
    assert Range(n) == a + rest;
  }

  /** Whoever completes the round finds all the other threads in it. */
  lemma OthersHaveArrived(s: State, t: Tid, u: Tid)
    requires RoundInv(s) && s.count == 1 && t < |s.threads| && t !in Arrived(s)
    requires u < |s.threads| && u != t
    ensures s.threads[u].arrivals == s.rounds + 1
  {
    SubsetOfAll(Arrived(s) + {t}, |s.threads|);
    assert u in Arrived(s) + {t};
  }

  lemma LastArrival(s: State, t: Tid)
    requires Inv(s) && s.activated && Enabled(SHIPPED, s, Arrive(t)) && s.count == 1
    ensures RoundInv(Apply(SHIPPED, s, Arrive(t)))
  {
    var s' := Apply(SHIPPED, s, Arrive(t));
    assert InStep(s, t);
    forall u | 0 <= u < |s.threads| ensures InStep(s', u) && s'.threads[u].arrivals == s.rounds + 1 {
      assert InStep(s, u) && Sound(s, u);
      if u != t { OthersHaveArrived(s, t, u); }
    }
    assert Arrived(s') == {};
  }

  lemma EarlierArrival(s: State, t: Tid)
    requires Inv(s) && s.activated && Enabled(SHIPPED, s, Arrive(t)) && s.count != 1
    ensures RoundInv(Apply(SHIPPED, s, Arrive(t)))
  {
    var s' := Apply(SHIPPED, s, Arrive(t));
    assert InStep(s, t);
    assert t !in Arrived(s);
    assert (s.count + WORD - 1) % WORD == s.count - 1;
    assert Arrived(s') == Arrived(s) + {t};
    forall u | 0 <= u < |s.threads| ensures InStep(s', u) { assert InStep(s, u); }
  }

  lemma StepKeepsInv(s: State, step: Step)
    requires Inv(s) && Enabled(SHIPPED, s, step)
    ensures Inv(Apply(SHIPPED, s, step))
  {
    StepKeepsWakeInv(s, step);
    var s' := Apply(SHIPPED, s, step);
    if s'.activated {
      assert Sound(s, step.t);
      if step.Arrive? {
        if s.count == 1 { LastArrival(s, step.t); } else { EarlierArrival(s, step.t); }
      } else {
        forall u | 0 <= u < |s.threads| ensures InStep(s', u) { assert InStep(s, u); }
        assert Arrived(s') == Arrived(s);
      }
    }
  }

  lemma {:induction false} RunKeepsInv(s: State, schedule: seq<Step>)
    requires Inv(s) && Feasible(SHIPPED, s, schedule)
    ensures Inv(Run(SHIPPED, s, schedule))
    decreases |schedule|
  {
    if schedule != [] {
      StepKeepsInv(s, schedule[0]);
      RunKeepsInv(Apply(SHIPPED, s, schedule[0]), schedule[1..]);
    }
  }

  lemma StartIsGood(n: nat)
    requires 0 < n < WORD
    ensures Inv(Start(n, n))
  {
    assert Arrived(Start(n, n)) == {};
  }

  /** For every k: a thread that has returned from its k-th arrive_and_wait did so after all n threads
      made their k-th arrival, and m_count plus the arrivals of the current round is always n. A thread
      asleep belongs to the round in progress, so no completed round leaves a sleeper behind. */
  lemma NobodyLeavesEarly(n: nat, schedule: seq<Step>, t: Tid, u: Tid, k: nat)
    requires 0 < n < WORD && Feasible(SHIPPED, Start(n, n), schedule) && t < n && u < n
    requires Run(SHIPPED, Start(n, n), schedule).activated
    ensures var s := Run(SHIPPED, Start(n, n), schedule);
      && |s.threads| == n
      && (s.threads[t].departures >= k ==> s.threads[u].arrivals >= k)
      && s.count + |Arrived(s)| == n && s.count >= 1
      && (s.threads[t].pc.Asleep? ==> s.threads[t].arrivals == s.rounds + 1)
  {
    StartIsGood(n);
    RunKeepsInv(Start(n, n), schedule);
    OriginalStays(Start(n, n), schedule);
    var s := Run(SHIPPED, Start(n, n), schedule);
    assert InStep(s, t) && InStep(s, u);
  }

  lemma {:induction false} OriginalStays(s: State, schedule: seq<Step>)
    requires Feasible(SHIPPED, s, schedule)
    ensures Run(SHIPPED, s, schedule).original == s.original
    ensures |Run(SHIPPED, s, schedule).threads| == |s.threads|
    decreases |schedule|
  {
    if schedule != [] { OriginalStays(Apply(SHIPPED, s, schedule[0]), schedule[1..]); }
  }

  // ---------------------------------------------------------------- the critical section is needed

  ghost predicate Leads(v: Variant, first: State, schedule: seq<Step>, s: State) {
    Feasible(v, first, schedule) && Run(v, first, schedule) == s
  }

  lemma {:induction false} Append(v: Variant, s: State, schedule: seq<Step>, step: Step)
    requires Feasible(v, s, schedule) && Enabled(v, Run(v, s, schedule), step)
    ensures Feasible(v, s, schedule + [step])
    ensures Run(v, s, schedule + [step]) == Apply(v, Run(v, s, schedule), step)
    decreases |schedule|
  {
    if schedule == [] {
      assert [step][1..] == [];
    } else {
      Append(v, Apply(v, s, schedule[0]), schedule[1..], step);
      assert (schedule + [step])[1..] == schedule[1..] + [step];
    }
  }

  lemma Then(v: Variant, first: State, schedule: seq<Step>, s: State, step: Step) returns (longer: seq<Step>, s': State)
    requires Leads(v, first, schedule, s) && Enabled(v, s, step)
    ensures Leads(v, first, longer, s') && s' == Apply(v, s, step)
  {
    Append(v, first, schedule, step);
    longer, s' := schedule + [step], Apply(v, s, step);
  }

  lemma Begin(v: Variant, first: State) returns (schedule: seq<Step>, s: State)
    ensures Leads(v, first, schedule, s) && s == first
  {
    schedule, s := [], first;
  }

  /** Without the critical section the notification can fall between the test of the wait condition and
      the sleep: the terminate is over, and a thread falls asleep that nobody is left to wake. */
  lemma CriticalSectionIsNeeded() returns (schedule: seq<Step>, s: State)
    ensures Leads(Variant(false), Start(2, 2), schedule, s)
    ensures s.terminated && |s.threads| == 2 && s.threads[0].pc.Asleep? && s.threads[1].pc.Idle?
  {
    hide Leads;
    var v, first := Variant(false), Start(2, 2);
    schedule, s := Begin(v, first);
    schedule, s := Then(v, first, schedule, s, Load(0));
    schedule, s := Then(v, first, schedule, s, Arrive(0));
    schedule, s := Then(v, first, schedule, s, Check(0));
    schedule, s := Then(v, first, schedule, s, Store(1));
    schedule, s := Then(v, first, schedule, s, Skip(1));
    schedule, s := Then(v, first, schedule, s, Notify(1));
    schedule, s := Then(v, first, schedule, s, Sleep(0));
  }
}
