/**
 The reusable barrier, with its mutex, its condition variable and `terminate`, as the interleaved
 steps of any number of threads. Waking up without a notification is allowed at any time.
 */
module Barrier {
  type Tid = nat

  const WORD: nat := 0x1_0000_0000_0000_0000  // m_count and m_generation are size_t

  datatype Pc =
    | Idle
    | Entering                  // m_is_activated was true; the mutex is not taken yet
    | Checking(generation: nat) // owns the mutex, about to evaluate the wait condition
    | Dozing(generation: nat)   // owns the mutex, found the condition false
    | Asleep(generation: nat)   // released the mutex inside the wait
    | Woken(generation: nat)    // left the wait, the mutex is not taken yet
    | Stored                    // terminate: m_is_activated is false
    | Critical                  // terminate: owns the mutex, in the empty critical section
    | Fenced                    // terminate: about to notify

  datatype Thread = Thread(pc: Pc, arrivals: nat, departures: nat)  // the counts are history

  datatype Lock = Free | HeldBy(t: Tid)

  datatype State = State(
    original: nat, count: nat, generation: nat, activated: bool, lock: Lock,
    threads: seq<Thread>,
    rounds: nat,       // history: completed rounds; generation is its remainder modulo WORD
    fenced: bool,      // history: some terminate has left its critical section
    terminated: bool)  // history: some terminate has notified

  /** `terminate` with its critical section, or without it. */
  datatype Variant = Variant(critical: bool)

  const SHIPPED := Variant(true)

  datatype Step =
    | Load(t: Tid) | Arrive(t: Tid) | Check(t: Tid) | Sleep(t: Tid) | Wake(t: Tid) | Relock(t: Tid)
    | Store(t: Tid) | Lock(t: Tid) | Skip(t: Tid) | Unlock(t: Tid) | Notify(t: Tid)

  function Start(original: nat, threads: nat): State {
    State(original, original, 0, true, Free, seq(threads, _ => Thread(Idle, 0, 0)), 0, false, false)
  }

  predicate Enabled(v: Variant, s: State, step: Step) {
    && step.t < |s.threads|
    && var pc := s.threads[step.t].pc;
    match step
    case Load(_) => pc.Idle?
    case Arrive(_) => pc.Entering? && s.lock.Free?
    case Check(_) => pc.Checking?
    case Sleep(_) => pc.Dozing?
    case Wake(_) => pc.Asleep?
    case Relock(_) => pc.Woken? && s.lock.Free?
    case Store(_) => pc.Idle?
    case Lock(_) => pc.Stored? && s.lock.Free?
    case Skip(_) => pc.Stored? && !v.critical
    case Unlock(_) => pc.Critical?
    case Notify(_) => pc.Fenced?
  }

  function Goto(s: State, t: Tid, pc: Pc): State
    requires t < |s.threads|
  {
    s.(threads := s.threads[t := s.threads[t].(pc := pc)])
  }

  function Rouse(th: Thread): Thread {
    if th.pc.Asleep? then th.(pc := Woken(th.pc.generation)) else th
  }

  function NotifyAll(s: State): State {
    s.(threads := seq(|s.threads|, i requires 0 <= i < |s.threads| => Rouse(s.threads[i])))
  }

  function Depart(s: State, t: Tid): State
    requires t < |s.threads|
  {
    var th := s.threads[t];
    s.(threads := s.threads[t := th.(pc := Idle, departures := th.departures + 1)])
  }

  function ArriveBy(s: State, t: Tid): State
    requires t < |s.threads|
  {
    var th := s.threads[t];
    var arrived := s.(threads := s.threads[t := th.(arrivals := th.arrivals + 1)]);
    var count := (s.count + WORD - 1) % WORD;
    if count == 0
    then Depart(NotifyAll(arrived), t).(
      count := s.original, generation := (s.generation + 1) % WORD, rounds := s.rounds + 1)
    else Goto(arrived, t, Checking(s.generation)).(count := count, lock := HeldBy(t))
  }

  function Apply(v: Variant, s: State, step: Step): State
    requires Enabled(v, s, step)
  {
    var t := step.t;
    var pc := s.threads[t].pc;
    match step
    case Load(_) => if s.activated then Goto(s, t, Entering) else s
    case Arrive(_) => ArriveBy(s, t)
    case Check(_) =>
      if pc.generation != s.generation || !s.activated
      then Depart(s, t).(lock := Free)
      else Goto(s, t, Dozing(pc.generation))
    case Sleep(_) => Goto(s, t, Asleep(pc.generation)).(lock := Free)
    case Wake(_) => Goto(s, t, Woken(pc.generation))
    case Relock(_) => Goto(s, t, Checking(pc.generation)).(lock := HeldBy(t))
    case Store(_) => Goto(s, t, Stored).(activated := false)
    case Lock(_) => Goto(s, t, Critical).(lock := HeldBy(t))
    case Skip(_) => Goto(s, t, Fenced)
    case Unlock(_) => Goto(s, t, Fenced).(lock := Free, fenced := true)
    case Notify(_) => NotifyAll(Goto(s, t, Idle)).(terminated := true)
  }

  ghost predicate Feasible(v: Variant, s: State, schedule: seq<Step>)
    decreases |schedule|
  {
    schedule == [] || (Enabled(v, s, schedule[0]) && Feasible(v, Apply(v, s, schedule[0]), schedule[1..]))
  }

  ghost function Run(v: Variant, s: State, schedule: seq<Step>): State
    requires Feasible(v, s, schedule)
    decreases |schedule|
  {
    if schedule == [] then s else Run(v, Apply(v, s, schedule[0]), schedule[1..])
  }

  // ---------------------------------------------------------------- no lost wake-up on terminate

  predicate OwnsMutex(pc: Pc) { pc.Checking? || pc.Dozing? || pc.Critical? }

  predicate Sound(s: State, t: Tid)
    requires t < |s.threads|
  {
    var pc := s.threads[t].pc;
    && (OwnsMutex(pc) <==> s.lock == HeldBy(t))
    && (pc.Stored? || pc.Critical? || pc.Fenced? ==> !s.activated)
    && (pc.Fenced? ==> s.fenced)
    && (s.fenced ==> !pc.Dozing?)
    && (s.terminated ==> !pc.Asleep?)
  }

  ghost predicate WakeInv(s: State) {
    && (s.fenced ==> !s.activated)
    && (s.terminated ==> s.fenced)
    && forall t | 0 <= t < |s.threads| :: Sound(s, t)
  }

  lemma StepKeepsSound(s: State, step: Step, t: Tid)
    requires WakeInv(s) && Enabled(SHIPPED, s, step) && t < |s.threads|
    ensures t < |Apply(SHIPPED, s, step).threads| && Sound(Apply(SHIPPED, s, step), t)
  {
    assert Sound(s, t) && Sound(s, step.t);
  }

  lemma StepKeepsWakeInv(s: State, step: Step)
    requires WakeInv(s) && Enabled(SHIPPED, s, step)
    ensures WakeInv(Apply(SHIPPED, s, step))
  {
    var s' := Apply(SHIPPED, s, step);
    assert Sound(s, step.t);
    forall t | 0 <= t < |s'.threads| ensures Sound(s', t) { StepKeepsSound(s, step, t); }
  }

  lemma {:induction false} RunKeepsWakeInv(s: State, schedule: seq<Step>)
    requires WakeInv(s) && Feasible(SHIPPED, s, schedule)
    ensures WakeInv(Run(SHIPPED, s, schedule))
    decreases |schedule|
  {
    if schedule != [] {
      StepKeepsWakeInv(s, schedule[0]);
      RunKeepsWakeInv(Apply(SHIPPED, s, schedule[0]), schedule[1..]);
    }
  }

  /** Once a terminate has notified, nobody sleeps in the barrier and nobody is about to: this holds in
      every state from then on, for any number of threads and any initial count. */
  lemma NobodySleepsAfterTerminate(original: nat, threads: nat, schedule: seq<Step>, t: Tid)
    requires Feasible(SHIPPED, Start(original, threads), schedule)
    requires t < |Run(SHIPPED, Start(original, threads), schedule).threads|
    ensures var s := Run(SHIPPED, Start(original, threads), schedule);
      s.terminated ==> !s.activated && !s.threads[t].pc.Asleep? && !s.threads[t].pc.Dozing?
  {
    RunKeepsWakeInv(Start(original, threads), schedule);
    assert Sound(Run(SHIPPED, Start(original, threads), schedule), t);
  }
}
