/**
 What every interleaving of the hRPC client keeps: one owner per registered request, no request
 left behind by the final drain, and no callback while a transfer may still use its buffers.
 */
module HrpcClientProofs {
  import opened HrpcClient
  import opened Wrappers

  predicate Holds(loop: Loop, t: Token) {
    match loop
    case AwaitReady(u) => t == u
    case Starting(u) => t == u
    case AwaitRead(u) => t == u
    case Calling(u, _) => t == u
    case Reporting(u, _) => t == u
    case Parking(u) => t == u
    case Draining(rest) => t in rest
    case _ => false
  }

  /** All the places the reply data of `t` can be, plus the executions of its callback. */
  function Ownership(s: State, t: Token): nat
    requires t < |s.requests|
  {
    var r := s.requests[t];
    One(Pending(s, t)) + One(Holds(s.loop, t)) + One(r.pc.Owning?) + r.parked + One(r.discarded) + r.runs
  }

  predicate WasRegistered(r: Request) { r.pc != Numbered && r.pc != Returned(NoBuffer) }

  /** Exactly one owner per registered request, and its callback is one of them. */
  predicate OwnedOnce(s: State, t: Token)
    requires t < |s.requests|
  {
    Ownership(s, t) == One(WasRegistered(s.requests[t]))
  }

  predicate Drained(loop: Loop) { loop.Draining? || loop.Finished? }

  /** The race between a late request and the final drain: only a caller that has not read
      m_is_running again can still find its reply data in the map. */
  predicate NotLeftBehind(s: State, t: Token)
    requires t < |s.requests|
  {
    Pending(s, t) && Drained(s.loop) ==>
      var pc := s.requests[t].pc; pc == Registered || pc == Written || pc.Withdrawing?
  }

  /** Why a callback that did not run was given up, and what an outcome says about it. */
  predicate Consistent(r: Request, parking: bool) {
    && (r.parked > 0 ==> r.pc == Returned(Rejected) || r.stuck)
    && (r.discarded ==> r.pc == Returned(Rejected) || r.stuck || r.pc == Returned(TimedOut))
    && (r.pc == Returned(Rejected) ==> r.parked > 0 || r.discarded)
    && (parking ==> r.stuck)
    && (r.stuck ==> parking || r.parked > 0 || r.discarded)
    && (r.pc == Returned(Accepted) ==> !r.sync)
    && (r.pc == Returned(TimedOut) || r.pc == Returned(Replied) || r.pc == Waiting ==> r.sync)
    && (r.pc == Returned(Replied) ==> r.runs > 0)
  }

  predicate Explained(s: State, t: Token)
    requires t < |s.requests|
  {
    Consistent(s.requests[t], s.loop == Parking(t))
  }

  predicate ConnectionIsClosed(d: Destructor) { d.ConnectionClosed? || d.Joined? || d.Destroyed? }

  /** Who may still touch buffers that belong to a callback. */
  predicate Safe(r: Request, awaited: bool, closed: bool) {
    && (r.read.Active? ==> r.stuck || awaited)
    && (r.writing ==> r.pc != Numbered && r.pc != Registered)
    && (r.writing && r.pc.Withdrawing? ==> r.pc.queued)
    && (r.writing && r.pc.Owning? ==> r.pc.queued)
    && (r.writing && r.pc == Returned(Rejected) ==> r.parked > 0)
    && (closed ==> !r.read.Active? && !r.writing)
  }

  predicate BuffersKept(s: State, t: Token)
    requires t < |s.requests|
  {
    Safe(s.requests[t], s.loop == AwaitRead(t), ConnectionIsClosed(s.dtor))
  }

  predicate Good(s: State, t: Token)
    requires t < |s.requests|
  {
    OwnedOnce(s, t) && NotLeftBehind(s, t) && Explained(s, t) && BuffersKept(s, t)
  }

  /** Nobody is going to use the id of `t` for `t` again. */
  predicate Retired(s: State, t: Token)
    requires t < |s.requests|
  {
    s.requests[t].pc.Returned? && !Pending(s, t)
  }

  ghost predicate IdsApart(s: State) {
    forall t, u | 0 <= t < |s.requests| && 0 <= u < |s.requests| && t != u && s.requests[t].id == s.requests[u].id ::
      Retired(s, t) || Retired(s, u)
  }

  ghost predicate Shape(s: State) {
    && (forall id | id in s.replies :: s.replies[id] < |s.requests| && s.requests[s.replies[id]].id == id)
    && (forall t: Token | Holds(s.loop, t) :: t < |s.requests|)
    && (s.loop.Stopped? || Drained(s.loop) ==> !s.running)
    && (s.dtor.Joined? || s.dtor.Destroyed? ==> s.loop.Finished?)
  }

  ghost predicate Inv(s: State) {
    Shape(s) && IdsApart(s) && forall t | 0 <= t < |s.requests| :: Good(s, t)
  }

  lemma PendingAreTheValues(s: State)
    requires Shape(s)
    ensures forall t: Token :: t in s.replies.Values <==> t < |s.requests| && Pending(s, t)
  {
    forall t: Token | t in s.replies.Values
      ensures t < |s.requests| && Pending(s, t)
    {
      var id :| id in s.replies && s.replies[id] == t;
    }
  }

  /** A caller that is still inside finds at its id either its own reply data or nothing. */
  lemma IdBelongsToCaller(s: State, t: Token)
    requires Shape(s) && IdsApart(s) && t < |s.requests| && !s.requests[t].pc.Returned?
    ensures s.requests[t].id in s.replies ==> Pending(s, t)
  {
    if s.requests[t].id in s.replies {
      var u := s.replies[s.requests[t].id];
      assert Pending(s, u);
      assert u != t ==> Retired(s, t) || Retired(s, u);
    }
  }

  lemma EnterKeepsShape(s: State, step: EnterStep)
    requires Shape(s) && CanEnter(s, step)
    ensures Shape(DoEnter(s, step)) && |DoEnter(s, step).requests| == |s.requests| + One(step.Number?)
  {
  }

  /** The step may take a reply from the map. */
  predicate Takes(step: LeaveStep) { step.Withdraw? || step.WaitTimesOut? }

  /** What a step of a caller makes of its own request. */
  lemma LeaveChanges(s: State, step: LeaveStep)
    requires CanLeave(s, step)
    ensures var s', r := DoLeave(SHIPPED, s, step), s.requests[step.t];
      && s'.loop == s.loop && s'.dtor == s.dtor && s'.running == s.running && s'.broken == s.broken
      && |s'.requests| == |s.requests|
      && (forall t | 0 <= t < |s.requests| && t != step.t :: s'.requests[t] == s.requests[t])
      && s'.requests[step.t] ==
         match step
         case Recheck(_) => if s.running then Issued(r) else r.(pc := Withdrawing(true))
         case Withdraw(_) => if r.id in s.replies then r.(pc := Owning(r.pc.queued)) else Issued(r)
         case GiveUp(_) =>
           if r.pc.queued then r.(pc := Returned(Rejected), parked := r.parked + 1)
           else r.(pc := Returned(Rejected), discarded := true)
         case TakeReply(_) => r.(pc := Returned(Replied))
         case WaitTimesOut(t) => r.(pc := Returned(TimedOut), discarded := r.discarded || Pending(s, t))
  {
  }

  lemma LeaveTakes(s: State, step: LeaveStep)
    requires CanLeave(s, step)
    ensures var s' := DoLeave(SHIPPED, s, step);
      && (s'.replies == s.replies || (Takes(step) && s'.replies == s.replies - {s.requests[step.t].id}))
      && s'.requests[step.t].id == s.requests[step.t].id
  {
  }

  lemma LeaveKeepsShape(s: State, step: LeaveStep)
    requires Shape(s) && CanLeave(s, step)
    ensures Shape(DoLeave(SHIPPED, s, step)) && |DoLeave(SHIPPED, s, step).requests| == |s.requests|
  {
    hide DoLeave;
    LeaveChanges(s, step);
    LeaveTakes(s, step);
  }

  lemma MessageKeepsShape(s: State, step: MessageStep)
    requires Shape(s) && CanMessage(s, step)
    ensures Shape(DoMessage(s, step)) && |DoMessage(s, step).requests| == |s.requests|
  {
  }

  /** The step is the last one with this reply. */
  predicate LetsGo(step: ReplyStep) { step.Call? || step.Report? || step.Park? }

  /** The loop keeps the request in hand until the last step. */
  lemma OnwardHolds(r: Request, loop: Loop, open: bool, step: ReplyStep, t: Token)
    requires InHand(loop) && Fits(r, loop, open, step)
    ensures var next := Onward(r, loop, open, step);
      && (Holds(next, t) <==> t == loop.t && !LetsGo(step)) && !next.Stopped? && !Drained(next)
      && (next == AwaitRead(t) ==> step.Start? && t == loop.t) && (next == Parking(t) ==> t == loop.t)
  {
  }

  /** Nothing but the request in hand and the loop changes. */
  lemma ReplyChanges(s: State, step: ReplyStep, t: Token)
    requires CanReply(s, step) && t < |s.requests|
    ensures var s', r, open := DoReply(s, step), s.requests[s.loop.t], s.dtor.Alive? || s.dtor.Stopping?;
      && s'.replies == s.replies && s'.running == s.running && s'.dtor == s.dtor && |s'.requests| == |s.requests|
      && s'.loop == Onward(r, s.loop, open, step)
      && s'.requests[t] == if t == s.loop.t then Touched(r, s.loop, open, step) else s.requests[t]
  {
    hide Touched, Onward;
  }

  /** What every step leaves of the request in hand. */
  lemma TouchedKeeps(r: Request, loop: Loop, open: bool, step: ReplyStep)
    requires InHand(loop) && Fits(r, loop, open, step)
    ensures var r' := Touched(r, loop, open, step);
      && r'.id == r.id && r'.pc == r.pc && r'.discarded == r.discarded && r'.writing == r.writing
      && r'.sync == r.sync && r'.hasReads == r.hasReads
  {
  }

  /** The last step counts once: as an execution of the callback or as an entry in the parked list. */
  lemma TouchedCounts(r: Request, loop: Loop, open: bool, step: ReplyStep)
    requires InHand(loop) && Fits(r, loop, open, step)
    ensures var r' := Touched(r, loop, open, step);
      && r'.parked == r.parked + One(step.Park?) && r'.runs == r.runs + One(step.Call? || step.Report?)
      && (LetsGo(step) ==> r'.read == r.read)
  {
    match step
    case Ready(_) => case Start(_) => case ReadEnds => case ReadTimesOut => case Call => case Report => case Park =>
  }

  lemma ReplyKeepsShape(s: State, step: ReplyStep)
    requires Shape(s) && CanReply(s, step)
    ensures Shape(DoReply(s, step)) && |DoReply(s, step).requests| == |s.requests|
  {
    hide DoReply, Touched, Onward;
    var s', r, open := DoReply(s, step), s.requests[s.loop.t], s.dtor.Alive? || s.dtor.Stopping?;
    ReplyChanges(s, step, s.loop.t);
    TouchedKeeps(r, s.loop, open, step);
    forall t: Token | t < |s.requests| ensures s'.requests[t].id == s.requests[t].id { ReplyChanges(s, step, t); }
    forall t: Token ensures Holds(s'.loop, t) ==> t == s.loop.t { OnwardHolds(r, s.loop, open, step, t); }
    OnwardHolds(r, s.loop, open, step, 0);
  }

  lemma DrainKeepsShape(s: State, step: DrainStep)
    requires Shape(s) && CanDrain(s, step)
    ensures Shape(DoDrain(SHIPPED, s, step)) && |DoDrain(SHIPPED, s, step).requests| == |s.requests|
  {
    PendingAreTheValues(s);
    if step.DrainOne? { forall t: Token | t in s.loop.rest ensures t < |s.requests| { assert Holds(s.loop, t); } }
  }

  lemma OutsideKeepsShape(s: State, step: OutsideStep)
    requires Shape(s) && CanOutside(s, step)
    ensures Shape(DoOutside(s, step)) && |DoOutside(s, step).requests| == |s.requests|
  {
  }

  // ---------------------------------------------------------------- owners

  /** Between two states, request `t` keeps its id and stays retired. */
  predicate Steady(s: State, s': State, t: Token)
    requires t < |s.requests|
  {
    && t < |s'.requests| && s'.requests[t].id == s.requests[t].id
    && (Retired(s, t) ==> Retired(s', t))
  }

  /** Nothing that is told about `t` differs. */
  predicate SameStory(s: State, s': State, t: Token)
    requires t < |s.requests|
  {
    t < |s'.requests| && s'.requests[t] == s.requests[t] && s'.loop == s.loop && s'.dtor == s.dtor
  }

  /** The step is one of caller `t` itself. */
  predicate Own(step: EnterStep, t: Token) { !step.Admit? && !step.Number? && step.t == t }

  lemma EnterKeepsOthers(s: State, step: EnterStep, t: Token)
    requires CanEnter(s, step) && t < |s.requests| && !Own(step, t)
    ensures SameStory(s, DoEnter(s, step), t) && (!step.Register? ==> DoEnter(s, step).replies == s.replies)
  {
  }

  lemma EnterKeepsOwnOwner(s: State, step: EnterStep)
    requires CanEnter(s, step) && !step.Admit? && !step.Number? && !step.Register?
    requires OwnedOnce(s, step.t) && NotLeftBehind(s, step.t)
    ensures Steady(s, DoEnter(s, step), step.t)
    ensures OwnedOnce(DoEnter(s, step), step.t) && NotLeftBehind(DoEnter(s, step), step.t)
  {
  }

  lemma EnterKeepsOwner(s: State, step: EnterStep, t: Token)
    requires Shape(s) && IdsApart(s) && CanEnter(s, step) && t < |s.requests|
    requires OwnedOnce(s, t) && NotLeftBehind(s, t)
    ensures Steady(s, DoEnter(s, step), t) && OwnedOnce(DoEnter(s, step), t) && NotLeftBehind(DoEnter(s, step), t)
  {
    hide DoEnter, Shape, IdsApart;
    if step.Register? {
      RegisterKeepsOwner(s, step.t, t);
    } else if Own(step, t) {
      EnterKeepsOwnOwner(s, step);
    } else {
      EnterKeepsOthers(s, step, t);
    }
  }

  lemma RegisterKeepsOwner(s: State, u: Token, t: Token)
    requires Shape(s) && IdsApart(s) && CanEnter(s, Register(u)) && t < |s.requests|
    requires OwnedOnce(s, t) && NotLeftBehind(s, t)
    ensures var s' := DoEnter(s, Register(u)); Steady(s, s', t) && OwnedOnce(s', t) && NotLeftBehind(s', t)
  {
    IdBelongsToCaller(s, u);
  }

  /** A step of caller `t` takes nothing from the map that is not its own. */
  lemma TakingKeepsOwnOwner(s: State, step: LeaveStep)
    requires CanLeave(s, step) && Takes(step) && (s.requests[step.t].id in s.replies ==> Pending(s, step.t))
    requires OwnedOnce(s, step.t) && NotLeftBehind(s, step.t)
    ensures Steady(s, DoLeave(SHIPPED, s, step), step.t)
    ensures OwnedOnce(DoLeave(SHIPPED, s, step), step.t) && NotLeftBehind(DoLeave(SHIPPED, s, step), step.t)
  {
  }

  lemma OtherLeaveKeepsOwnOwner(s: State, step: LeaveStep)
    requires CanLeave(s, step) && !Takes(step)
    requires (s.loop.Stopped? || Drained(s.loop) ==> !s.running) && OwnedOnce(s, step.t) && NotLeftBehind(s, step.t)
    ensures Steady(s, DoLeave(SHIPPED, s, step), step.t)
    ensures OwnedOnce(DoLeave(SHIPPED, s, step), step.t) && NotLeftBehind(DoLeave(SHIPPED, s, step), step.t)
  {
  }

  lemma LeaveKeepsOthers(s: State, step: LeaveStep, t: Token)
    requires CanLeave(s, step) && t < |s.requests| && t != step.t
    requires s.requests[step.t].id in s.replies ==> Pending(s, step.t)
    ensures var s' := DoLeave(SHIPPED, s, step);
      && t < |s'.requests| && s'.requests[t] == s.requests[t] && s'.loop == s.loop && s'.dtor == s.dtor
      && Pending(s', t) == Pending(s, t)
  {
  }

  lemma LeaveKeepsOwner(s: State, step: LeaveStep, t: Token)
    requires Shape(s) && IdsApart(s) && CanLeave(s, step) && t < |s.requests|
    requires OwnedOnce(s, t) && NotLeftBehind(s, t)
    ensures Steady(s, DoLeave(SHIPPED, s, step), t)
    ensures OwnedOnce(DoLeave(SHIPPED, s, step), t) && NotLeftBehind(DoLeave(SHIPPED, s, step), t)
  {
    hide DoLeave;
    if !s.requests[step.t].pc.Returned? { IdBelongsToCaller(s, step.t); }
    if t != step.t {
      LeaveKeepsOthers(s, step, t);
    } else if Takes(step) {
      TakingKeepsOwnOwner(s, step);
    } else {
      OtherLeaveKeepsOwnOwner(s, step);
    }
  }

  lemma PopKeepsOwner(s: State, t: Token)
    requires Shape(s) && CanMessage(s, PopReply) && t < |s.requests| && OwnedOnce(s, t)
    ensures Steady(s, DoMessage(s, PopReply), t) && OwnedOnce(DoMessage(s, PopReply), t)
    ensures DoMessage(s, PopReply).requests[t].pc == s.requests[t].pc && !Drained(DoMessage(s, PopReply).loop)
  {
  }

  lemma MessageKeepsOwner(s: State, step: MessageStep, t: Token)
    requires Shape(s) && CanMessage(s, step) && t < |s.requests| && OwnedOnce(s, t)
    ensures Steady(s, DoMessage(s, step), t) && OwnedOnce(DoMessage(s, step), t)
    ensures DoMessage(s, step).requests[t].pc == s.requests[t].pc && !Drained(DoMessage(s, step).loop)
  {
    if step.PopReply? { PopKeepsOwner(s, t); }
  }

  lemma ReplyKeepsOwner(s: State, step: ReplyStep, t: Token)
    requires CanReply(s, step) && t < |s.requests| && OwnedOnce(s, t)
    ensures t < |DoReply(s, step).requests| && Steady(s, DoReply(s, step), t) && OwnedOnce(DoReply(s, step), t)
    ensures DoReply(s, step).requests[t].pc == s.requests[t].pc && !Drained(DoReply(s, step).loop)
  {
    hide DoReply, Touched, Onward;
    var r, open := s.requests[s.loop.t], s.dtor.Alive? || s.dtor.Stopping?;
    ReplyChanges(s, step, t);
    TouchedKeeps(r, s.loop, open, step);
    TouchedCounts(r, s.loop, open, step);
    OnwardHolds(r, s.loop, open, step, t);
  }

  lemma DrainKeepsOwner(s: State, step: DrainStep, t: Token)
    requires Shape(s) && CanDrain(s, step) && t < |s.requests| && OwnedOnce(s, t) && NotLeftBehind(s, t)
    ensures Steady(s, DoDrain(SHIPPED, s, step), t)
    ensures OwnedOnce(DoDrain(SHIPPED, s, step), t) && NotLeftBehind(DoDrain(SHIPPED, s, step), t)
  {
    PendingAreTheValues(s);
  }

  lemma OutsideKeepsOwner(s: State, step: OutsideStep, t: Token)
    requires Shape(s) && CanOutside(s, step) && t < |s.requests| && Good(s, t)
    ensures Steady(s, DoOutside(s, step), t) && OwnedOnce(DoOutside(s, step), t) && NotLeftBehind(DoOutside(s, step), t)
  {
  }

  // ---------------------------------------------------------------- stories

  lemma EnterKeepsOwnStory(s: State, step: EnterStep)
    requires CanEnter(s, step) && !step.Admit? && !step.Number? && Good(s, step.t)
    ensures Explained(DoEnter(s, step), step.t) && BuffersKept(DoEnter(s, step), step.t)
  {
  }

  lemma EnterKeepsStory(s: State, step: EnterStep, t: Token)
    requires CanEnter(s, step) && t < |s.requests| && Good(s, t)
    ensures Explained(DoEnter(s, step), t) && BuffersKept(DoEnter(s, step), t)
  {
    hide DoEnter;
    if Own(step, t) { EnterKeepsOwnStory(s, step); } else { EnterKeepsOthers(s, step, t); }
  }

  lemma LeaveKeepsConsistent(s: State, step: LeaveStep)
    requires CanLeave(s, step) && OwnedOnce(s, step.t) && Explained(s, step.t)
    ensures Explained(DoLeave(SHIPPED, s, step), step.t)
  {
    hide DoLeave;
    LeaveChanges(s, step);
  }

  lemma LeaveKeepsSafe(s: State, step: LeaveStep)
    requires CanLeave(s, step) && OwnedOnce(s, step.t) && BuffersKept(s, step.t)
    ensures BuffersKept(DoLeave(SHIPPED, s, step), step.t)
  {
    hide DoLeave;
    LeaveChanges(s, step);
  }

  lemma LeaveKeepsStory(s: State, step: LeaveStep, t: Token)
    requires CanLeave(s, step) && t < |s.requests| && Good(s, t)
    ensures Explained(DoLeave(SHIPPED, s, step), t) && BuffersKept(DoLeave(SHIPPED, s, step), t)
  {
    hide DoLeave, Consistent, Safe;
    LeaveChanges(s, step);
    if t == step.t {
      LeaveKeepsConsistent(s, step);
      LeaveKeepsSafe(s, step);
    }
  }

  lemma MessageKeepsStory(s: State, step: MessageStep, t: Token)
    requires CanMessage(s, step) && t < |s.requests| && Good(s, t)
    ensures Explained(DoMessage(s, step), t) && BuffersKept(DoMessage(s, step), t)
  {
  }

  /** The request in hand: a read that may be outstanding is awaited, or was reported as timed out. */
  lemma TouchedKeepsStory(r: Request, loop: Loop, open: bool, closed: bool, step: ReplyStep)
    requires InHand(loop) && Fits(r, loop, open, step) && !(open && closed)
    requires Consistent(r, loop.Parking?) && Safe(r, loop.AwaitRead?, closed)
    requires r.parked == 0 && !r.discarded && r.runs == 0
    ensures var r', next := Touched(r, loop, open, step), Onward(r, loop, open, step);
      Consistent(r', next == Parking(loop.t)) && Safe(r', next == AwaitRead(loop.t), closed)
  {
  }

  lemma ReplyKeepsStory(s: State, step: ReplyStep, t: Token)
    requires CanReply(s, step) && t < |s.requests| && Good(s, t)
    ensures t < |DoReply(s, step).requests| && Explained(DoReply(s, step), t) && BuffersKept(DoReply(s, step), t)
  {
    hide DoReply, Touched, Onward, Consistent, Safe;
    var r, open := s.requests[s.loop.t], s.dtor.Alive? || s.dtor.Stopping?;
    ReplyChanges(s, step, t);
    OnwardHolds(r, s.loop, open, step, t);
    if t == s.loop.t { TouchedKeepsStory(r, s.loop, open, ConnectionIsClosed(s.dtor), step); }
  }

  lemma DrainKeepsStory(s: State, step: DrainStep, t: Token)
    requires CanDrain(s, step) && t < |s.requests| && Good(s, t)
    ensures Explained(DoDrain(SHIPPED, s, step), t) && BuffersKept(DoDrain(SHIPPED, s, step), t)
  {
  }

  lemma OutsideKeepsStory(s: State, step: OutsideStep, t: Token)
    requires Shape(s) && CanOutside(s, step) && t < |s.requests| && Good(s, t)
    ensures Explained(DoOutside(s, step), t) && BuffersKept(DoOutside(s, step), t)
  {
  }

  lemma StepKeepsGood(s: State, step: Step, t: Token)
    requires Inv(s) && Enabled(s, step) && t < |s.requests|
    ensures Steady(s, Apply(SHIPPED, s, step), t) && Good(Apply(SHIPPED, s, step), t)
  {
    hide DoEnter, DoLeave, DoMessage, DoReply, DoDrain, DoOutside;
    assert Good(s, t);
    match step
    case Enter(e) => EnterKeepsOwner(s, e, t); EnterKeepsStory(s, e, t);
    case Leave(v) => LeaveKeepsOwner(s, v, t); LeaveKeepsStory(s, v, t);
    case Message(m) => MessageKeepsOwner(s, m, t); MessageKeepsStory(s, m, t);
    case Reply(r) => ReplyKeepsOwner(s, r, t); ReplyKeepsStory(s, r, t);
    case Drain(d) => DrainKeepsOwner(s, d, t); DrainKeepsStory(s, d, t);
    case Outside(o) => OutsideKeepsOwner(s, o, t); OutsideKeepsStory(s, o, t);
  }

  lemma StepKeepsShape(s: State, step: Step)
    requires Shape(s) && Enabled(s, step)
    ensures Shape(Apply(SHIPPED, s, step))
    ensures |Apply(SHIPPED, s, step).requests| == |s.requests| + One(step.Enter? && step.e.Number?)
  {
    hide DoEnter, DoLeave, DoMessage, DoReply, DoDrain, DoOutside;
    match step
    case Enter(e) => EnterKeepsShape(s, e);
    case Leave(v) => LeaveKeepsShape(s, v);
    case Message(m) => MessageKeepsShape(s, m);
    case Reply(r) => ReplyKeepsShape(s, r);
    case Drain(d) => DrainKeepsShape(s, d);
    case Outside(o) => OutsideKeepsShape(s, o);
  }

  /** The request that Number adds: nothing is recorded about it and every other user of its id is gone. */
  lemma NewcomerIsGood(s: State, step: EnterStep)
    requires Shape(s) && CanEnter(s, step) && step.Number?
    ensures Newcomer(s, DoEnter(s, step))
  {
    assert !Holds(s.loop, |s.requests|);
    assert forall id | id in s.replies :: s.replies[id] != |s.requests|;
  }

  ghost predicate Newcomer(s: State, s': State) {
    && |s'.requests| == |s.requests| + 1 && Good(s', |s.requests|)
    && forall u | 0 <= u < |s.requests| && s.requests[u].id == s'.requests[|s.requests|].id :: Retired(s, u)
  }

  /** What one step may do to the records of request `t`: a callback runs only in the hands of the loop
      thread, and a parked reply stays. */
  predicate Recorded(s: State, s': State, t: Token)
    requires t < |s.requests|
  {
    && t < |s'.requests|
    && (s'.requests[t].runs != s.requests[t].runs ==>
          && Holds(s.loop, t) && !s.loop.Parking? && !s.loop.AwaitRead?
          && s'.requests[t].read == s.requests[t].read)
    && s.requests[t].parked <= s'.requests[t].parked
    && (s.loop.Finished? ==> s'.loop.Finished?)
  }

  lemma EnterRecords(s: State, step: EnterStep, t: Token)
    requires CanEnter(s, step) && t < |s.requests|
    ensures Recorded(s, DoEnter(s, step), t)
  {
  }

  lemma LeaveRecords(s: State, step: LeaveStep, t: Token)
    requires CanLeave(s, step) && t < |s.requests|
    ensures Recorded(s, DoLeave(SHIPPED, s, step), t)
  {
  }

  lemma MessageRecords(s: State, step: MessageStep, t: Token)
    requires CanMessage(s, step) && t < |s.requests|
    ensures Recorded(s, DoMessage(s, step), t)
  {
  }

  lemma ReplyRecords(s: State, step: ReplyStep, t: Token)
    requires CanReply(s, step) && t < |s.requests|
    ensures Recorded(s, DoReply(s, step), t)
  {
    hide DoReply, Touched, Onward;
    var r, open := s.requests[s.loop.t], s.dtor.Alive? || s.dtor.Stopping?;
    ReplyChanges(s, step, t);
    TouchedCounts(r, s.loop, open, step);
  }

  lemma DrainRecords(s: State, step: DrainStep, t: Token)
    requires CanDrain(s, step) && t < |s.requests|
    ensures Recorded(s, DoDrain(SHIPPED, s, step), t)
  {
  }

  lemma StepRecords(s: State, step: Step, t: Token)
    requires Enabled(s, step) && t < |s.requests|
    ensures step == Outside(DropParked) || Recorded(s, Apply(SHIPPED, s, step), t)
    ensures step == Outside(DropParked) ==> Apply(SHIPPED, s, step).requests[t].runs == s.requests[t].runs
  {
    match step
    case Enter(e) => EnterRecords(s, e, t);
    case Leave(v) => LeaveRecords(s, v, t);
    case Message(m) => MessageRecords(s, m, t);
    case Reply(r) => ReplyRecords(s, r, t);
    case Drain(d) => DrainRecords(s, d, t);
    case Outside(_) =>
  }

  lemma Assemble(s: State, s': State)
    requires Inv(s) && Shape(s')
    requires forall t | 0 <= t < |s.requests| :: Steady(s, s', t) && Good(s', t)
    requires |s'.requests| == |s.requests| || Newcomer(s, s')
    ensures Inv(s')
  {
    forall t, u | 0 <= t < |s'.requests| && 0 <= u < |s'.requests| && t != u && s'.requests[t].id == s'.requests[u].id
      ensures Retired(s', t) || Retired(s', u)
    {
      if t < |s.requests| { assert Steady(s, s', t); }
      if u < |s.requests| { assert Steady(s, s', u); }
      if t < |s.requests| && u < |s.requests| { assert Retired(s, t) || Retired(s, u); }
    }
  }

  lemma StepKeepsInv(s: State, step: Step)
    requires Inv(s) && Enabled(s, step)
    ensures Inv(Apply(SHIPPED, s, step))
  {
    StepKeepsShape(s, step);
    if step.Enter? && step.e.Number? { NewcomerIsGood(s, step.e); }
    forall t | 0 <= t < |s.requests|
      ensures Steady(s, Apply(SHIPPED, s, step), t) && Good(Apply(SHIPPED, s, step), t)
    {
      StepKeepsGood(s, step, t);
    }
    Assemble(s, Apply(SHIPPED, s, step));
  }

  // ---------------------------------------------------------------- all runs

  lemma {:induction false} RunKeepsInv(s: State, schedule: seq<Step>)
    requires Inv(s) && Feasible(SHIPPED, s, schedule)
    ensures Inv(Run(SHIPPED, s, schedule))
    decreases |schedule|
  {
    if schedule != [] {
      StepKeepsInv(s, schedule[0]);
      RunKeepsInv(Apply(SHIPPED, s, schedule[0]), schedule[1..]);
    }
  }

  /** In every state of every run each registered request has exactly one owner: the pending map,
      the loop, its caller, the parked list, or the one execution of its callback. */
  lemma OneOwnerPerRequest(schedule: seq<Step>, t: Token)
    requires Feasible(SHIPPED, INITIAL, schedule)
    requires t < |Run(SHIPPED, INITIAL, schedule).requests|
    ensures var s := Run(SHIPPED, INITIAL, schedule); Ownership(s, t) == One(WasRegistered(s.requests[t]))
  {
    RunKeepsInv(INITIAL, schedule);
    assert Good(Run(SHIPPED, INITIAL, schedule), t);
  }

  /** What the caller was told about its callback. In any state, a failure means that it did not run
      and, as this covers every later state, never will. At the end, once the loop-finished flag is set
      and the caller is back, success means that it ran once, unless a started read timed out. */
  lemma OutcomeTellsCallback(schedule: seq<Step>, t: Token)
    requires Feasible(SHIPPED, INITIAL, schedule)
    requires t < |Run(SHIPPED, INITIAL, schedule).requests|
    ensures var s := Run(SHIPPED, INITIAL, schedule); var r := s.requests[t];
      && r.runs <= 1
      && (r.pc == Returned(Rejected) || r.pc == Returned(NoBuffer) ==> r.runs == 0)
      && (r.pc == Returned(Replied) ==> r.runs == 1)
      && (r.pc == Returned(Accepted) && s.loop.Finished? ==> r.runs == if r.stuck then 0 else 1)
      && (r.pc == Returned(TimedOut) && s.loop.Finished? && r.runs == 0 ==> r.discarded || r.stuck)
  {
    RunKeepsInv(INITIAL, schedule);
    assert Good(Run(SHIPPED, INITIAL, schedule), t);
  }

  /** A callback never runs while a started read may still write the buffers of its reply. */
  lemma CallbackAfterRead(schedule: seq<Step>, step: Step, t: Token)
    requires Feasible(SHIPPED, INITIAL, schedule) && Enabled(Run(SHIPPED, INITIAL, schedule), step)
    requires t < |Run(SHIPPED, INITIAL, schedule).requests|
    ensures var s := Run(SHIPPED, INITIAL, schedule); var s' := Apply(SHIPPED, s, step);
      && t < |s'.requests|
      && (s'.requests[t].runs != s.requests[t].runs ==> !s.requests[t].read.Active? && !s'.requests[t].read.Active?)
  {
    var s := Run(SHIPPED, INITIAL, schedule);
    RunKeepsInv(INITIAL, schedule);
    assert Good(s, t);
    StepRecords(s, step, t);
  }

  /** Once the loop-finished flag is set, no continuation of the run executes a callback. */
  lemma {:induction false} SilentOnceFinished(s: State, later: seq<Step>, t: Token)
    requires s.loop.Finished? && Feasible(SHIPPED, s, later) && t < |s.requests|
    ensures var s' := Run(SHIPPED, s, later);
      s'.loop.Finished? && t < |s'.requests| && s'.requests[t].runs == s.requests[t].runs
    decreases |later|
  {
    if later != [] {
      StepRecords(s, later[0], t);
      SilentOnceFinished(Apply(SHIPPED, s, later[0]), later[1..], t);
    }
  }

  /** A parked reply leaves the list in one step only, and by then the connection is closed, the loop
      thread is over and no transfer is left. A request rejected after its write was queued is parked
      for as long as that write lasts. */
  lemma ParkedUntilClosed(schedule: seq<Step>, step: Step, t: Token)
    requires Feasible(SHIPPED, INITIAL, schedule) && Enabled(Run(SHIPPED, INITIAL, schedule), step)
    requires t < |Run(SHIPPED, INITIAL, schedule).requests|
    ensures var s := Run(SHIPPED, INITIAL, schedule); var s' := Apply(SHIPPED, s, step);
      && (t < |s'.requests| && s'.requests[t].parked < s.requests[t].parked ==>
            s.loop.Finished? && NoTransfers(s) && ConnectionIsClosed(s.dtor))
      && (s.requests[t].pc == Returned(Rejected) && s.requests[t].writing ==> s.requests[t].parked == 1)
  {
    var s := Run(SHIPPED, INITIAL, schedule);
    RunKeepsInv(INITIAL, schedule);
    assert Good(s, t);
    StepRecords(s, step, t);
    forall u | 0 <= u < |s.requests| && ConnectionIsClosed(s.dtor)
      ensures !s.requests[u].read.Active? && !s.requests[u].writing
    {
      assert Good(s, u);
    }
  }
}
