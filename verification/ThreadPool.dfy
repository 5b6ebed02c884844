/**
 The worker pool: a job queue and a kill flag under one mutex, workers that sleep on a condition variable,
 and a destructor that sets the flag, notifies everybody and joins every worker.

 Jobs are numbered in the order in which add_job takes the mutex, accepted or not.
 */
module ThreadPool {
  import opened Wrappers

  type Job = nat

  datatype Worker = Ready | Asleep | Running(job: Job) | Exited

  datatype Destructor = Alive | Killing | Notified | Done

  datatype State = State(
    queue: seq<Job>, kill: bool, workers: seq<Worker>,
    notices: nat,        // add_job calls between the push and their notify_one
    dtor: Destructor,
    submitted: nat,      // history: jobs offered so far
    accepted: seq<Job>, taken: seq<Job>, executed: seq<Job>)

  function Created(workers: nat): State {
    State([], false, seq(workers, _ => Ready), 0, Alive, 0, [], [], [])
  }

  datatype Step =
    | AddJob
    | NotifyOne(w: nat)  // wakes w
    | NotifyNobody       // nobody is asleep
    | Look(w: nat)       // the worker, with the mutex: evaluates its wait condition and acts on it
    | WakeUp(w: nat)     // without a notification
    | Complete(w: nat)   // func() returned
    | Kill | NotifyAll | JoinAll

  ghost predicate Enabled(s: State, step: Step) {
    match step
    case AddJob => true
    case NotifyOne(w) => s.notices > 0 && w < |s.workers| && s.workers[w].Asleep?
    case NotifyNobody => s.notices > 0 && forall w | 0 <= w < |s.workers| :: !s.workers[w].Asleep?
    case Look(w) => w < |s.workers| && s.workers[w].Ready?
    case WakeUp(w) => w < |s.workers| && s.workers[w].Asleep?
    case Complete(w) => w < |s.workers| && s.workers[w].Running?
    case Kill => s.dtor.Alive?
    case NotifyAll => s.dtor.Killing?
    case JoinAll => s.dtor.Notified? && forall w | 0 <= w < |s.workers| :: s.workers[w].Exited?
  }

  function Goto(s: State, w: nat, pc: Worker): State
    requires w < |s.workers|
  {
    s.(workers := s.workers[w := pc])
  }

  ghost function Apply(s: State, step: Step): State
    requires Enabled(s, step)
  {
    match step
    case AddJob =>
      var job := s.submitted;
      if s.kill then s.(submitted := job + 1)
      else s.(submitted := job + 1, queue := s.queue + [job], accepted := s.accepted + [job], notices := s.notices + 1)
    case NotifyOne(w) => Goto(s, w, Ready).(notices := s.notices - 1)
    case NotifyNobody => s.(notices := s.notices - 1)
    case Look(w) =>
      if s.queue != []
      then Goto(s, w, Running(s.queue[0])).(queue := s.queue[1..], taken := s.taken + [s.queue[0]])
      else Goto(s, w, if s.kill then Exited else Asleep)
    case WakeUp(w) => Goto(s, w, Ready)
    case Complete(w) => Goto(s, w, Ready).(executed := s.executed + [s.workers[w].job])
    case Kill => s.(kill := true, dtor := Killing)
    case NotifyAll =>
      s.(dtor := Notified, workers := seq(|s.workers|, w requires 0 <= w < |s.workers| =>
           if s.workers[w].Asleep? then Ready else s.workers[w]))
    case JoinAll => s.(dtor := Done)
  }

  ghost predicate Feasible(s: State, schedule: seq<Step>)
    decreases |schedule|
  {
    schedule == [] || (Enabled(s, schedule[0]) && Feasible(Apply(s, schedule[0]), schedule[1..]))
  }

  ghost function Run(s: State, schedule: seq<Step>): State
    requires Feasible(s, schedule)
    decreases |schedule|
  {
    if schedule == [] then s else Run(Apply(s, schedule[0]), schedule[1..])
  }

  // ---------------------------------------------------------------- invariant

  /** How many workers are running job `j`. */
  function RunnersOf(workers: seq<Worker>, j: Job): nat {
    if workers == [] then 0
    else RunnersOf(workers[..|workers| - 1], j) + One(workers[|workers| - 1] == Running(j))
  }

  lemma {:induction false} RunnersAfter(workers: seq<Worker>, w: nat, pc: Worker, j: Job)
    requires w < |workers|
    ensures RunnersOf(workers[w := pc], j) + One(workers[w] == Running(j))
            == RunnersOf(workers, j) + One(pc == Running(j))
  {
    var n := |workers| - 1;
    if w == n {
      assert workers[w := pc][..n] == workers[..n];
    } else {
      assert workers[w := pc][..n] == workers[..n][w := pc];
      RunnersAfter(workers[..n], w, pc, j);
    }
  }

  lemma {:induction false} SameRunners(a: seq<Worker>, b: seq<Worker>, j: Job)
    requires |a| == |b| && forall w | 0 <= w < |a| :: a[w] == Running(j) <==> b[w] == Running(j)
    ensures RunnersOf(a, j) == RunnersOf(b, j)
  {
    if a != [] { SameRunners(a[..|a| - 1], b[..|b| - 1], j); }
  }

  /** Every taken job is with one worker or has been executed once. */
  ghost predicate Conserved(s: State, j: Job) {
    multiset(s.taken)[j] == RunnersOf(s.workers, j) + multiset(s.executed)[j]
  }

  /** Jobs are taken in the order of submission, and no two submissions are the same job. */
  ghost predicate Ordered(s: State) {
    && s.taken + s.queue == s.accepted
    && (forall i | 0 <= i < |s.accepted| :: s.accepted[i] < s.submitted)
    && (forall i, k | 0 <= i < k < |s.accepted| :: s.accepted[i] < s.accepted[k])
  }

  predicate Awake(w: Worker) { w.Ready? || w.Running? }

  ghost predicate SomebodyAwake(s: State) { exists w :: 0 <= w < |s.workers| && Awake(s.workers[w]) }

  ghost predicate Controlled(s: State) {
    && (s.kill <==> !s.dtor.Alive?)
    && (forall w | 0 <= w < |s.workers| && s.workers[w].Exited? :: s.kill && s.queue == [])
    && (s.dtor.Done? ==> forall w | 0 <= w < |s.workers| :: s.workers[w].Exited?)
    && (s.dtor.Notified? || s.dtor.Done? ==> forall w | 0 <= w < |s.workers| :: !s.workers[w].Asleep?)
    && (s.queue != [] && s.notices == 0 && |s.workers| > 0 ==> SomebodyAwake(s))
  }

  ghost predicate Inv(s: State) {
    Ordered(s) && Controlled(s) && forall j :: Conserved(s, j)
  }

  lemma StepKeepsOrder(s: State, step: Step)
    requires Ordered(s) && Enabled(s, step)
    ensures Ordered(Apply(s, step))
  {
    if step.AddJob? && !s.kill { assert s.taken + (s.queue + [s.submitted]) == (s.taken + s.queue) + [s.submitted]; }
  }

  lemma StepKeepsControl(s: State, step: Step)
    requires Controlled(s) && Enabled(s, step)
    ensures Controlled(Apply(s, step)) && |Apply(s, step).workers| == |s.workers|
  {
    var s' := Apply(s, step);
    if s'.queue != [] && s'.notices == 0 && |s'.workers| > 0 {
      if step.NotifyOne? || step.Look? || step.WakeUp? || step.Complete? {
        assert Awake(s'.workers[step.w]);
      } else if step.NotifyNobody? {
        assert Awake(s'.workers[0]);
      } else if step.Kill? || step.NotifyAll? || s.kill {
        var w :| 0 <= w < |s.workers| && Awake(s.workers[w]);
        assert Awake(s'.workers[w]);
      }
    }
  }

  lemma StepConserves(s: State, step: Step, j: Job)
    requires Conserved(s, j) && Enabled(s, step)
    ensures Conserved(Apply(s, step), j)
  {
    var s' := Apply(s, step);
    if step.NotifyAll? {
      SameRunners(s.workers, s'.workers, j);
    } else if step.NotifyOne? || step.Look? || step.WakeUp? || step.Complete? {
      RunnersAfter(s.workers, step.w, s'.workers[step.w], j);
    }
  }

  lemma {:induction false} RunKeepsInv(s: State, schedule: seq<Step>)
    requires Inv(s) && Feasible(s, schedule)
    ensures Inv(Run(s, schedule)) && |Run(s, schedule).workers| == |s.workers|
    decreases |schedule|
  {
    if schedule != [] {
      var s' := Apply(s, schedule[0]);
      StepKeepsOrder(s, schedule[0]);
      StepKeepsControl(s, schedule[0]);
      forall j ensures Conserved(s', j) { StepConserves(s, schedule[0], j); }
      RunKeepsInv(s', schedule[1..]);
    }
  }

  lemma CreatedIsGood(workers: nat)
    ensures Inv(Created(workers))
  {
    forall j ensures Conserved(Created(workers), j) { NoRunners(Created(workers).workers, j); }
  }

  lemma {:induction false} NoRunners(workers: seq<Worker>, j: Job)
    requires forall w | 0 <= w < |workers| :: !workers[w].Running?
    ensures RunnersOf(workers, j) == 0
  {
    if workers != [] { NoRunners(workers[..|workers| - 1], j); }
  }

  lemma {:induction false} IncreasingIsDistinct(q: seq<Job>, j: Job)
    requires forall i, k | 0 <= i < k < |q| :: q[i] < q[k]
    ensures multiset(q)[j] == One(j in q)
  {
    if q != [] {
      var front := q[..|q| - 1];
      assert q == front + [q[|q| - 1]];
      IncreasingIsDistinct(front, j);
    }
  }

  // ---------------------------------------------------------------- which jobs are accepted

  /** The jobs offered before the pool is killed. */
  function OfferedInTime(schedule: seq<Step>): nat {
    if schedule == [] || schedule[0].Kill? then 0 else One(schedule[0].AddJob?) + OfferedInTime(schedule[1..])
  }

  function Offered(schedule: seq<Step>): nat {
    if schedule == [] then 0 else One(schedule[0].AddJob?) + Offered(schedule[1..])
  }

  function Iota(from: Job, n: nat): seq<Job> { seq(n, i => from + i) }

  lemma {:induction false} AcceptedInTime(s: State, schedule: seq<Step>)
    requires Feasible(s, schedule)
    ensures var s' := Run(s, schedule);
      && s'.submitted == s.submitted + Offered(schedule)
      && s'.accepted == s.accepted + if s.kill then [] else Iota(s.submitted, OfferedInTime(schedule))
    decreases |schedule|
  {
    if schedule != [] {
      AcceptedInTime(Apply(s, schedule[0]), schedule[1..]);
      if schedule[0].AddJob? && !s.kill {
        var n := OfferedInTime(schedule[1..]);
        assert s.accepted + [s.submitted] + Iota(s.submitted + 1, n) == s.accepted + Iota(s.submitted, n + 1);
      }
    }
  }

  /** The pool accepts exactly the jobs offered before it is killed, in order. */
  lemma AcceptsUntilKilled(workers: nat, schedule: seq<Step>)
    requires Feasible(Created(workers), schedule)
    ensures var s := Run(Created(workers), schedule);
      s.accepted == Iota(0, OfferedInTime(schedule)) && s.submitted == Offered(schedule)
  {
    AcceptedInTime(Created(workers), schedule);
    assert [] + Iota(0, OfferedInTime(schedule)) == Iota(0, OfferedInTime(schedule));
  }

  /** When the destructor returns from a pool that has a worker, the queue is empty, every job offered before the kill
      was taken in the order of submission and executed exactly once, and no later job was executed. */
  lemma EveryAcceptedJobRanOnce(workers: nat, schedule: seq<Step>, j: Job)
    requires workers > 0 && Feasible(Created(workers), schedule)
    requires Run(Created(workers), schedule).dtor.Done?
    ensures var s := Run(Created(workers), schedule);
      && s.queue == [] && s.taken == s.accepted == Iota(0, OfferedInTime(schedule))
      && multiset(s.executed)[j] == One(j < OfferedInTime(schedule))
  {
    CreatedIsGood(workers);
    RunKeepsInv(Created(workers), schedule);
    AcceptsUntilKilled(workers, schedule);
    var s := Run(Created(workers), schedule);
    assert s.workers[0].Exited?;
    assert Conserved(s, j);
    NoRunners(s.workers, j);
    assert s.taken + [] == s.taken;
    IncreasingIsDistinct(s.accepted, j);
    assert j < OfferedInTime(schedule) ==> s.accepted[j] == j;
  }

  /** In any state a job has been executed at most once, and only if it was accepted; an accepted job never
      waits in the queue while all the workers sleep and no notification is on its way; once the destructor
      has notified, nobody sleeps. */
  lemma NoJobIsForgotten(workers: nat, schedule: seq<Step>, j: Job)
    requires workers > 0 && Feasible(Created(workers), schedule)
    ensures var s := Run(Created(workers), schedule);
      && multiset(s.executed)[j] <= One(j in s.accepted)
      && (s.queue != [] ==> s.notices > 0 || SomebodyAwake(s))
      && (s.dtor.Notified? ==> forall w | 0 <= w < |s.workers| :: !s.workers[w].Asleep?)
  {
    CreatedIsGood(workers);
    RunKeepsInv(Created(workers), schedule);
    var s := Run(Created(workers), schedule);
    assert Conserved(s, j);
    IncreasingIsDistinct(s.accepted, j);
    assert multiset(s.accepted) == multiset(s.taken) + multiset(s.queue);
  }

  /** Without a worker no accepted job is ever executed, whatever happens. */
  lemma NoWorkerNoJob(schedule: seq<Step>)
    requires Feasible(Created(0), schedule)
    ensures var s := Run(Created(0), schedule); s.executed == [] && s.queue == s.accepted
  {
    CreatedIsGood(0);
    RunKeepsInv(Created(0), schedule);
    NothingTaken(Created(0), schedule);
    var s := Run(Created(0), schedule);
    assert [] + s.queue == s.queue;
  }

  lemma {:induction false} NothingTaken(s: State, schedule: seq<Step>)
    requires Feasible(s, schedule) && s.workers == []
    ensures Run(s, schedule).executed == s.executed && Run(s, schedule).taken == s.taken
    decreases |schedule|
  {
    if schedule != [] { NothingTaken(Apply(s, schedule[0]), schedule[1..]); }
  }

  // ---------------------------------------------------------------- the pool never hangs

  lemma {:induction false} Concat(s: State, a: seq<Step>, b: seq<Step>)
    requires Feasible(s, a) && Feasible(Run(s, a), b)
    ensures Feasible(s, a + b) && Run(s, a + b) == Run(Run(s, a), b)
    decreases |a|
  {
    if a == [] {
      assert a + b == b;
    } else {
      Concat(Apply(s, a[0]), a[1..], b);
      assert (a + b)[1..] == a[1..] + b;
    }
  }

  lemma Then(s: State, step: Step, rest: seq<Step>) returns (schedule: seq<Step>)
    requires Enabled(s, step) && Feasible(Apply(s, step), rest)
    ensures Feasible(s, schedule) && Run(s, schedule) == Run(Apply(s, step), rest)
  {
    schedule := [step] + rest;
    assert schedule[0] == step && schedule[1..] == rest;
  }

  /** An awake worker takes the front of the queue and executes it. */
  lemma WorkerWorks(s: State, w: nat)
    requires w < |s.workers| && s.workers[w].Ready? && s.queue != []
    ensures Feasible(s, [Look(w), Complete(w)])
    ensures Run(s, [Look(w), Complete(w)]) ==
            s.(queue := s.queue[1..], taken := s.taken + [s.queue[0]], executed := s.executed + [s.queue[0]])
  {
    var s1 := Goto(s, w, Running(s.queue[0])).(queue := s.queue[1..], taken := s.taken + [s.queue[0]]);
    var s2 := s.(queue := s.queue[1..], taken := s.taken + [s.queue[0]], executed := s.executed + [s.queue[0]]);
    assert s1.workers[w := Ready] == s.workers;
    assert Apply(s, Look(w)) == s1 && Apply(s1, Complete(w)) == s2;
    assert [Look(w), Complete(w)][1..] == [Complete(w)] && [Complete(w)][1..] == [];
    assert Feasible(s2, []) && Run(s2, []) == s2;
    assert Feasible(s1, [Complete(w)]) && Run(s1, [Complete(w)]) == s2;
  }

  /** The work left after the destructor has notified: jobs to take, and workers on their way out. */
  function Left(w: Worker): nat { if w.Exited? then 0 else if w.Ready? then 1 else 2 }

  function LeftOf(workers: seq<Worker>): nat {
    if workers == [] then 0 else LeftOf(workers[..|workers| - 1]) + Left(workers[|workers| - 1])
  }

  lemma {:induction false} LeftAfter(workers: seq<Worker>, w: nat, pc: Worker)
    requires w < |workers|
    ensures LeftOf(workers[w := pc]) + Left(workers[w]) == LeftOf(workers) + Left(pc)
  {
    var n := |workers| - 1;
    if w == n {
      assert workers[w := pc][..n] == workers[..n];
    } else {
      assert workers[w := pc][..n] == workers[..n][w := pc];
      LeftAfter(workers[..n], w, pc);
    }
  }

  /** After the notification the workers drain the queue and leave, and the destructor returns. */
  lemma {:induction false} WorkersLeave(s: State) returns (schedule: seq<Step>)
    requires s.dtor.Notified? && s.kill
    ensures Feasible(s, schedule) && Run(s, schedule).dtor.Done?
    decreases |s.queue|, LeftOf(s.workers)
  {
    if w :| 0 <= w < |s.workers| && !s.workers[w].Exited? {
      var step := if s.workers[w].Ready? then Look(w) else if s.workers[w].Asleep? then WakeUp(w) else Complete(w);
      var next := Apply(s, step);
      LeftAfter(s.workers, w, next.workers[w]);
      assert next.workers == s.workers[w := next.workers[w]];
      var rest := WorkersLeave(next);
      schedule := Then(s, step, rest);
    } else {
      schedule := [JoinAll];
      assert [JoinAll][1..] == [];
    }
  }

  /** From every state of every run the destructor can come to its end, with or without workers. */
  lemma DestructorNeverHangs(workers: nat, before: seq<Step>) returns (later: seq<Step>)
    requires Feasible(Created(workers), before)
    ensures Feasible(Created(workers), before + later) && Run(Created(workers), before + later).dtor.Done?
  {
    CreatedIsGood(workers);
    RunKeepsInv(Created(workers), before);
    var s := Run(Created(workers), before);
    if s.dtor.Done? {
      later := [];
    } else {
      var s1 := if s.dtor.Alive? then Apply(s, Kill) else s;
      var s2 := if s1.dtor.Killing? then Apply(s1, NotifyAll) else s1;
      later := WorkersLeave(s2);
      if s1.dtor.Killing? { later := Then(s1, NotifyAll, later); }
      if s.dtor.Alive? { later := Then(s, Kill, later); }
    }
    Concat(Created(workers), before, later);
  }
}
