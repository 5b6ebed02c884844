/**
 What a callback is told, and why the client stops: over all runs, the status that reaches a callback is the one
 that its own reply, the read of its own buffers or the final drain gave, and nothing is refused or given up while
 the connection works and the client lives.
 */
module HrpcClientTold {
  import opened HrpcClient
  import opened HrpcClientProofs
  import opened Wrappers

  // ---------------------------------------------------------------- what a callback is told

  /** Additional buffers are read for this reply. */
  predicate Reading(r: Request) { r.tale.answer == Was(Success) && r.hasReads }

  /** All that decides the status is known. */
  predicate Settled(r: Request) {
    Reading(r) ==> (r.tale.ready.Was? && r.tale.ready.status != Success)
                   || (r.tale.began.Was? && r.tale.began.status != Success) || r.read.Ended?
  }

  /** The status that the callback of a request must be told. */
  function Verdict(r: Request): Status
    requires Settled(r)
  {
    if r.tale.answer.Never? then Closed
    else if !Reading(r) then r.tale.answer.status
    else if r.tale.ready.Was? && r.tale.ready.status != Success then r.tale.ready.status
    else if r.tale.began.Was? && r.tale.began.status != Success then r.tale.began.status
    else r.read.status
  }

  /** A read comes after a successful start, that after a successful wait, and that after a successful reply to a
      request with read buffers. */
  predicate InSequence(r: Request) {
    && (r.read != NotStarted ==> r.tale.began == Was(Success))
    && (r.tale.began.Was? ==> r.tale.ready == Was(Success))
    && (r.tale.ready.Was? ==> Reading(r))
  }

  /** How far the loop is with the request in hand. */
  predicate AtStage(r: Request, loop: Loop) {
    match loop
    case AwaitReady(_) => Reading(r) && r.tale.ready.Never?
    case Starting(_) => Reading(r) && r.tale.ready == Was(Success) && r.tale.began.Never?
    case AwaitRead(_) => Reading(r) && r.tale.began == Was(Success)
    case Calling(_, status) => r.tale.answer.Was? && Settled(r) && status == Verdict(r)
    case Reporting(_, status) => r.tale.answer.Was? && Settled(r) && status == Verdict(r) != Success
    case Draining(_) => r.tale.answer.Never?
    case _ => true
  }

  /** A callback that ran was told the verdict. */
  predicate Truthful(r: Request) {
    && InSequence(r) && r.runs == One(r.tale.told.Was?)
    && (r.tale.told.Was? ==> Settled(r) && r.tale.told.status == Verdict(r))
  }

  predicate Told(s: State, t: Token)
    requires t < |s.requests|
  {
    && Truthful(s.requests[t])
    && (Holds(s.loop, t) ==> AtStage(s.requests[t], s.loop))
    && (Pending(s, t) || !WasRegistered(s.requests[t]) ==> s.requests[t].tale.answer.Never?)
  }

  /** Nothing that decides what a callback is told differs. */
  predicate SameTale(r: Request, r': Request) {
    r'.tale == r.tale.(queued := r'.tale.queued) && r'.read == r.read && r'.hasReads == r.hasReads && r'.runs == r.runs
  }

  lemma SameTaleSameTruth(r: Request, r': Request, loop: Loop)
    requires SameTale(r, r')
    ensures Truthful(r) == Truthful(r') && AtStage(r, loop) == AtStage(r', loop)
  {
  }

  /** A step of a caller tells no callback anything, and puts nothing back in the map. */
  predicate Discreet(s: State, s': State, t: Token)
    requires t < |s.requests|
  {
    && t < |s'.requests| && SameTale(s.requests[t], s'.requests[t]) && s'.loop == s.loop
    && (Pending(s', t) ==> Pending(s, t) || !WasRegistered(s.requests[t]))
    && (!WasRegistered(s'.requests[t]) ==> !WasRegistered(s.requests[t]))
  }

  lemma RegisterIsDiscreet(s: State, u: Token, t: Token)
    requires CanEnter(s, Register(u)) && t < |s.requests|
    ensures Discreet(s, DoEnter(s, Register(u)), t)
  {
  }

  lemma EnterIsDiscreet(s: State, step: EnterStep, t: Token)
    requires CanEnter(s, step) && t < |s.requests|
    ensures Discreet(s, DoEnter(s, step), t)
  {
    if step.Register? { RegisterIsDiscreet(s, step.t, t); }
  }

  lemma LeaveIsDiscreet(s: State, step: LeaveStep, t: Token)
    requires CanLeave(s, step) && t < |s.requests|
    ensures Discreet(s, DoLeave(SHIPPED, s, step), t)
  {
    hide DoLeave;
    LeaveChanges(s, step);
    LeaveTakes(s, step);
  }

  lemma DiscreetKeepsTold(s: State, s': State, t: Token)
    requires t < |s.requests| && Discreet(s, s', t) && Told(s, t)
    ensures Told(s', t)
  {
    hide Truthful, AtStage;
    SameTaleSameTruth(s.requests[t], s'.requests[t], s.loop);
  }

  lemma AnsweredIsTruthful(r: Request, status: Status)
    requires Truthful(r) && r.tale.answer.Never? && r.runs == 0
    ensures var r' := r.(tale := r.tale.(answer := Was(status)));
      Truthful(r') && (Reading(r') ==> r'.tale.ready.Never?) && (!Reading(r') ==> Settled(r') && Verdict(r') == status)
  {
  }

  lemma MessageKeepsTold(s: State, step: MessageStep, t: Token)
    requires Shape(s) && CanMessage(s, step) && t < |s.requests| && OwnedOnce(s, t) && Told(s, t)
    ensures t < |DoMessage(s, step).requests| && Told(DoMessage(s, step), t)
  {
    hide Truthful;
    if step.PopReply? && Pending(s, t) && s.loop.id == s.requests[t].id {
      AnsweredIsTruthful(s.requests[t], s.loop.status);
    }
  }

  lemma TouchedIsTruthful(r: Request, loop: Loop, open: bool, step: ReplyStep)
    requires InHand(loop) && Fits(r, loop, open, step) && Truthful(r) && AtStage(r, loop) && r.runs == 0
    ensures var r', next := Touched(r, loop, open, step), Onward(r, loop, open, step);
      Truthful(r') && AtStage(r', next) && r'.tale.answer == r.tale.answer
  {
  }

  lemma ReplyKeepsTold(s: State, step: ReplyStep, t: Token)
    requires CanReply(s, step) && t < |s.requests| && OwnedOnce(s, t) && Told(s, t)
    ensures t < |DoReply(s, step).requests| && Told(DoReply(s, step), t)
  {
    hide DoReply, Touched, Onward, Truthful, AtStage;
    var r, open := s.requests[s.loop.t], s.dtor.Alive? || s.dtor.Stopping?;
    ReplyChanges(s, step, t);
    OnwardHolds(r, s.loop, open, step, t);
    if t == s.loop.t {
      TouchedKeeps(r, s.loop, open, step);
      TouchedIsTruthful(r, s.loop, open, step);
    }
  }

  lemma DrainKeepsTold(s: State, step: DrainStep, t: Token)
    requires Shape(s) && CanDrain(s, step) && t < |s.requests| && OwnedOnce(s, t) && Told(s, t)
    ensures t < |DoDrain(SHIPPED, s, step).requests| && Told(DoDrain(SHIPPED, s, step), t)
  {
    PendingAreTheValues(s);
  }

  lemma OutsideTale(s: State, step: OutsideStep, t: Token)
    requires CanOutside(s, step) && t < |s.requests|
    ensures var s' := DoOutside(s, step);
      && t < |s'.requests| && s'.loop == s.loop && s'.replies == s.replies
      && s'.requests[t].id == s.requests[t].id && s'.requests[t].pc == s.requests[t].pc
      && if step.ReadDone? && step.t == t
         then s.requests[t].read.Active? && s'.requests[t] == s.requests[t].(read := Ended(step.status))
         else SameTale(s.requests[t], s'.requests[t])
  {
  }

  /** While a read is active nothing has been told. */
  lemma EndedIsTruthful(r: Request, status: Status, loop: Loop)
    requires Truthful(r) && r.read.Active?
    ensures var r' := r.(read := Ended(status)); Truthful(r') && (AtStage(r, loop) ==> AtStage(r', loop))
  {
  }

  lemma OutsideKeepsTold(s: State, step: OutsideStep, t: Token)
    requires CanOutside(s, step) && t < |s.requests| && Told(s, t)
    ensures t < |DoOutside(s, step).requests| && Told(DoOutside(s, step), t)
  {
    hide DoOutside, Truthful, AtStage;
    OutsideTale(s, step, t);
    if step.ReadDone? && step.t == t {
      EndedIsTruthful(s.requests[t], step.status, s.loop);
    } else {
      SameTaleSameTruth(s.requests[t], DoOutside(s, step).requests[t], s.loop);
    }
  }

  lemma NewcomerIsTold(s: State, step: EnterStep)
    requires Shape(s) && CanEnter(s, step) && step.Number?
    ensures Told(DoEnter(s, step), |s.requests|)
  {
    assert !Holds(s.loop, |s.requests|);
    assert forall id | id in s.replies :: s.replies[id] != |s.requests|;
  }

  lemma StepKeepsTold(s: State, step: Step, t: Token)
    requires Inv(s) && Enabled(s, step) && t < |Apply(SHIPPED, s, step).requests|
    requires t < |s.requests| ==> Told(s, t)
    ensures Told(Apply(SHIPPED, s, step), t)
  {
    StepKeepsShape(s, step);
    hide DoEnter, DoLeave, DoMessage, DoReply, DoDrain, DoOutside, Told;
    if t == |s.requests| {
      NewcomerIsTold(s, step.e);
    } else {
      assert Good(s, t);
      match step
      case Enter(e) => EnterIsDiscreet(s, e, t); DiscreetKeepsTold(s, DoEnter(s, e), t);
      case Leave(v) => LeaveIsDiscreet(s, v, t); DiscreetKeepsTold(s, DoLeave(SHIPPED, s, v), t);
      case Message(m) => MessageKeepsTold(s, m, t);
      case Reply(r) => ReplyKeepsTold(s, r, t);
      case Drain(d) => DrainKeepsTold(s, d, t);
      case Outside(o) => OutsideKeepsTold(s, o, t);
    }
  }

  lemma {:induction false} RunKeepsTold(s: State, schedule: seq<Step>, t: Token)
    requires Inv(s) && Feasible(SHIPPED, s, schedule) && t < |Run(SHIPPED, s, schedule).requests|
    requires t < |s.requests| ==> Told(s, t)
    ensures Told(Run(SHIPPED, s, schedule), t)
    decreases |schedule|
  {
    hide Inv, Enabled, Apply, Told;
    if schedule != [] {
      StepKeepsInv(s, schedule[0]);
      if t < |Apply(SHIPPED, s, schedule[0]).requests| { StepKeepsTold(s, schedule[0], t); }
      RunKeepsTold(Apply(SHIPPED, s, schedule[0]), schedule[1..], t);
    }
  }

  /** In every run a callback is told the verdict, exactly when it runs: the status of its reply, or the failure of
      the readiness wait, of the start or of the read of its buffers, or that the connection closed when no reply
      came. Buffers are waited for only after a successful reply to a request that has some, and success over such
      buffers means that they were read. */
  lemma CallbackIsToldTheVerdict(schedule: seq<Step>, t: Token)
    requires Feasible(SHIPPED, INITIAL, schedule) && t < |Run(SHIPPED, INITIAL, schedule).requests|
    ensures var s := Run(SHIPPED, INITIAL, schedule); var r := s.requests[t];
      && r.runs == One(r.tale.told.Was?)
      && (r.tale.told.Was? ==> Settled(r) && r.tale.told.status == Verdict(r))
      && (s.loop == AwaitReady(t) || s.loop == Starting(t) || s.loop == AwaitRead(t) || r.read != NotStarted ==>
            r.hasReads && r.tale.answer == Was(Success))
      && (r.tale.told == Was(Success) && r.hasReads ==> r.read == Ended(Success))
  {
    RunKeepsTold(INITIAL, schedule, t);
  }

  // ---------------------------------------------------------------- why the client stops

  predicate Over(loop: Loop) { loop.Exited? || loop.Stopped? || Drained(loop) }

  /** A request is given up with its write queued only after the client stopped. */
  predicate GivenUpLate(r: Request, running: bool) {
    && (r.pc.Withdrawing? || r.pc.Owning? ==> r.pc.queued == r.tale.queued)
    && (r.pc == Written ==> r.tale.queued) && (r.pc == Numbered || r.pc == Registered ==> !r.tale.queued)
    && (r.tale.queued && (r.pc.Withdrawing? || r.pc.Owning? || r.pc == Returned(Rejected)) ==> !running)
  }

  ghost predicate Excused(s: State) {
    && (!s.running || Over(s.loop) ==> s.broken || !s.dtor.Alive?)
    && forall t | 0 <= t < |s.requests| :: GivenUpLate(s.requests[t], s.running)
  }

  lemma EnterKeepsExcused(s: State, step: EnterStep)
    requires Excused(s) && CanEnter(s, step)
    ensures Excused(DoEnter(s, step))
  {
  }

  lemma LeaveKeepsExcused(s: State, step: LeaveStep)
    requires Excused(s) && CanLeave(s, step)
    ensures Excused(DoLeave(SHIPPED, s, step))
  {
    hide DoLeave;
    LeaveChanges(s, step);
    assert GivenUpLate(s.requests[step.t], s.running);
  }

  lemma MessageKeepsExcused(s: State, step: MessageStep)
    requires Excused(s) && CanMessage(s, step)
    ensures Excused(DoMessage(s, step))
  {
  }

  lemma ReplyBreaks(s: State, step: ReplyStep)
    requires CanReply(s, step)
    ensures var s' := DoReply(s, step); (Over(s'.loop) ==> s'.broken) && (s.broken ==> s'.broken)
    ensures s.requests[s.loop.t].tale.queued == DoReply(s, step).requests[s.loop.t].tale.queued
  {
  }

  lemma ReplyKeepsExcused(s: State, step: ReplyStep)
    requires Excused(s) && CanReply(s, step)
    ensures Excused(DoReply(s, step))
  {
    hide DoReply, Touched, Onward;
    var s', r, open := DoReply(s, step), s.requests[s.loop.t], s.dtor.Alive? || s.dtor.Stopping?;
    ReplyBreaks(s, step);
    TouchedKeeps(r, s.loop, open, step);
    ReplyChanges(s, step, s.loop.t);
    forall t | 0 <= t < |s.requests| ensures GivenUpLate(s'.requests[t], s'.running) { ReplyChanges(s, step, t); }
  }

  lemma DrainKeepsExcused(s: State, step: DrainStep)
    requires Excused(s) && CanDrain(s, step)
    ensures Excused(DoDrain(SHIPPED, s, step))
  {
  }

  lemma OutsideKeepsExcused(s: State, step: OutsideStep)
    requires Excused(s) && CanOutside(s, step)
    ensures Excused(DoOutside(s, step))
  {
  }

  lemma StepKeepsExcused(s: State, step: Step)
    requires Excused(s) && Enabled(s, step)
    ensures Excused(Apply(SHIPPED, s, step))
  {
    hide DoEnter, DoLeave, DoMessage, DoReply, DoDrain, DoOutside, Excused;
    match step
    case Enter(e) => EnterKeepsExcused(s, e);
    case Leave(v) => LeaveKeepsExcused(s, v);
    case Message(m) => MessageKeepsExcused(s, m);
    case Reply(r) => ReplyKeepsExcused(s, r);
    case Drain(d) => DrainKeepsExcused(s, d);
    case Outside(o) => OutsideKeepsExcused(s, o);
  }

  lemma {:induction false} RunKeepsExcused(s: State, schedule: seq<Step>)
    requires Excused(s) && Feasible(SHIPPED, s, schedule)
    ensures Excused(Run(SHIPPED, s, schedule))
    decreases |schedule|
  {
    hide Excused, Enabled, Apply;
    if schedule != [] {
      StepKeepsExcused(s, schedule[0]);
      RunKeepsExcused(Apply(SHIPPED, s, schedule[0]), schedule[1..]);
    }
  }

  /** In every run: as long as no read of a message or of reply buffers has failed and the destructor has not begun,
      the client runs, its loop goes on, and a request is rejected only if its own write failed. */
  lemma OpenUntilBroken(schedule: seq<Step>, t: Token)
    requires Feasible(SHIPPED, INITIAL, schedule) && t < |Run(SHIPPED, INITIAL, schedule).requests|
    ensures var s := Run(SHIPPED, INITIAL, schedule);
      !s.broken && s.dtor.Alive? ==>
        s.running && !Over(s.loop) && (s.requests[t].pc == Returned(Rejected) ==> !s.requests[t].tale.queued)
  {
    RunKeepsExcused(INITIAL, schedule);
    assert GivenUpLate(Run(SHIPPED, INITIAL, schedule).requests[t], Run(SHIPPED, INITIAL, schedule).running);
  }

  // ---------------------------------------------------------------- a stopped client

  /** The calls that passed the first test. */
  function Callers(s: State): nat { |s.requests| + s.admitted }

  lemma EnterAdmitsNobody(s: State, step: EnterStep)
    requires !s.running && CanEnter(s, step)
    ensures var s' := DoEnter(s, step); !s'.running && Callers(s') == Callers(s)
  {
    hide IdIsFree;
  }

  lemma LeaveAdmitsNobody(p: Protocol, s: State, step: LeaveStep)
    requires !s.running && CanLeave(s, step)
    ensures var s' := DoLeave(p, s, step); !s'.running && Callers(s') == Callers(s)
  {
  }

  lemma StepAdmitsNobody(p: Protocol, s: State, step: Step)
    requires !s.running && Enabled(s, step)
    ensures var s' := Apply(p, s, step); !s'.running && Callers(s') == Callers(s)
  {
    hide CanEnter, DoEnter, CanLeave, DoLeave, Fits, Touched, Onward, NoTransfers;
    match step
    case Enter(e) => EnterAdmitsNobody(s, e);
    case Leave(v) => LeaveAdmitsNobody(p, s, v);
    case _ =>
  }

  /** Whatever runs on: a client that has stopped stays stopped, and lets nobody else in. */
  lemma {:induction false} StoppedForGood(p: Protocol, s: State, schedule: seq<Step>)
    requires !s.running && Feasible(p, s, schedule)
    ensures var s' := Run(p, s, schedule); !s'.running && Callers(s') == Callers(s)
    decreases |schedule|
  {
    hide Enabled, Apply, Callers;
    if schedule != [] {
      StepAdmitsNobody(p, s, schedule[0]);
      StoppedForGood(p, Apply(p, s, schedule[0]), schedule[1..]);
    }
  }
}
