/**
 A synchronous request that gives up waiting may leave a started read behind: its caller is back while the
 transfer still writes the buffers. This happens for requests with read buffers, and for no others; a caller that
 was given its reply never has a read behind it.
 */
module HrpcClientTimeout {
  import opened HrpcClient
  import opened HrpcClientProofs
  import opened HrpcClientOrder

  predicate Asked(loop: Loop, t: Token) { loop == AwaitReady(t) || loop == Starting(t) || loop == AwaitRead(t) }

  /** Only requests with read buffers are read for, and an awaited read has been started. */
  predicate Wanted(s: State, t: Token)
    requires t < |s.requests|
  {
    && (s.requests[t].read != NotStarted || Asked(s.loop, t) ==> s.requests[t].hasReads)
    && (s.loop == AwaitRead(t) ==> s.requests[t].read != NotStarted)
  }

  lemma EnterKeepsWanted(s: State, step: EnterStep, t: Token)
    requires Shape(s) && CanEnter(s, step) && t < |DoEnter(s, step).requests|
    requires t < |s.requests| ==> Wanted(s, t)
    ensures Wanted(DoEnter(s, step), t)
  {
    if t == |s.requests| { assert !Holds(s.loop, t); }
  }

  lemma LeaveKeepsWanted(s: State, step: LeaveStep, t: Token)
    requires CanLeave(s, step) && t < |s.requests| && Wanted(s, t)
    ensures t < |DoLeave(SHIPPED, s, step).requests| && Wanted(DoLeave(SHIPPED, s, step), t)
  {
    hide DoLeave;
    LeaveChanges(s, step);
  }

  lemma MessageKeepsWanted(s: State, step: MessageStep, t: Token)
    requires CanMessage(s, step) && t < |s.requests| && Wanted(s, t)
    ensures t < |DoMessage(s, step).requests| && Wanted(DoMessage(s, step), t)
  {
  }

  lemma ReplyKeepsWanted(s: State, step: ReplyStep, t: Token)
    requires CanReply(s, step) && t < |s.requests| && Wanted(s, t)
    ensures t < |DoReply(s, step).requests| && Wanted(DoReply(s, step), t)
  {
    hide DoReply;
    ReplyChanges(s, step, t);
  }

  lemma DrainKeepsWanted(s: State, step: DrainStep, t: Token)
    requires CanDrain(s, step) && t < |s.requests| && Wanted(s, t)
    ensures t < |DoDrain(SHIPPED, s, step).requests| && Wanted(DoDrain(SHIPPED, s, step), t)
  {
  }

  lemma OutsideKeepsWanted(s: State, step: OutsideStep, t: Token)
    requires CanOutside(s, step) && t < |s.requests| && Wanted(s, t)
    ensures t < |DoOutside(s, step).requests| && Wanted(DoOutside(s, step), t)
  {
  }

  lemma StepKeepsWanted(s: State, step: Step, t: Token)
    requires Shape(s) && Enabled(s, step) && t < |Apply(SHIPPED, s, step).requests|
    requires t < |s.requests| ==> Wanted(s, t)
    ensures Wanted(Apply(SHIPPED, s, step), t)
  {
    hide DoEnter, DoLeave, DoMessage, DoReply, DoDrain, DoOutside;
    StepKeepsShape(s, step);
    match step
    case Enter(e) => EnterKeepsWanted(s, e, t);
    case Leave(v) => LeaveKeepsWanted(s, v, t);
    case Message(m) => MessageKeepsWanted(s, m, t);
    case Reply(r) => ReplyKeepsWanted(s, r, t);
    case Drain(d) => DrainKeepsWanted(s, d, t);
    case Outside(o) => OutsideKeepsWanted(s, o, t);
  }

  lemma {:induction false} RunKeepsWanted(s: State, schedule: seq<Step>, t: Token)
    requires Inv(s) && Feasible(SHIPPED, s, schedule) && t < |Run(SHIPPED, s, schedule).requests|
    requires t < |s.requests| ==> Wanted(s, t)
    ensures Wanted(Run(SHIPPED, s, schedule), t)
    decreases |schedule|
  {
    hide Inv, Enabled, Apply, Wanted;
    if schedule != [] {
      var s' := Apply(SHIPPED, s, schedule[0]);
      InvHasShape(s);
      StepKeepsInv(s, schedule[0]);
      if t < |s'.requests| { StepKeepsWanted(s, schedule[0], t); }
      RunKeepsWanted(s', schedule[1..], t);
    }
  }

  lemma InvHasShape(s: State)
    requires Inv(s)
    ensures Shape(s)
  {
  }

  /** In every run: once the callback has run, and so when a synchronous caller has its reply, no read is left
      behind. After a timeout a read is left exactly while the loop awaits one that has not ended, or one that was
      given up as timed out has not ended. */
  lemma ReadsLeftBehind(schedule: seq<Step>, t: Token)
    requires Feasible(SHIPPED, INITIAL, schedule) && t < |Run(SHIPPED, INITIAL, schedule).requests|
    ensures var s := Run(SHIPPED, INITIAL, schedule); var r := s.requests[t];
      && (r.runs > 0 || r.pc == Returned(Replied) ==> !r.read.Active?)
      && (r.pc == Returned(TimedOut) ==>
            (r.read.Active? <==> !r.read.Ended? && (s.loop == AwaitRead(t) || (r.stuck && r.read != NotStarted))))
      && (r.read.Active? ==> r.hasReads)
  {
    RunKeepsInv(INITIAL, schedule);
    RunKeepsWanted(INITIAL, schedule, t);
    assert Good(Run(SHIPPED, INITIAL, schedule), t);
  }

  /** A synchronous request is back with a timeout while a read into its buffers is active. */
  ghost predicate Overtaken(schedule: seq<Step>, hasReads: bool, t: Token) {
    && Feasible(SHIPPED, INITIAL, schedule) && t < |Run(SHIPPED, INITIAL, schedule).requests|
    && var r := Run(SHIPPED, INITIAL, schedule).requests[t];
       r.pc == Returned(TimedOut) && r.hasReads == hasReads && r.read.Active?
  }

  function Lone(writer: bool, pc: Caller, read: Transfer, tale: Tale, replies: map<nat, Token>, loop: Loop): State {
    State(true, 0, writer, [Request(0, true, true, pc, read, tale.queued, 0, false, false, 0, tale)],
          replies, loop, Alive, false)
  }

  const QUEUED := UNTOLD.(queued := true)

  const STARTED := Tale(true, Was(Success), Was(Success), Was(Success), Never)

  lemma SyncNumber(s: State)
    requires s == INITIAL.(admitted := 1)
    ensures CanEnter(s, Number(true, true))
    ensures DoEnter(s, Number(true, true)) == Lone(true, Numbered, NotStarted, UNTOLD, map[], Top)
  {
    assert |s.requests| % ID_SPACE == 0;
    assert DoEnter(s, Number(true, true)).requests == Lone(true, Numbered, NotStarted, UNTOLD, map[], Top).requests;
  }

  lemma WaitingRequest() returns (schedule: seq<Step>)
    ensures Leads(SHIPPED, schedule, Lone(false, Waiting, NotStarted, QUEUED, map[0 := 0], Top))
  {
    hide Leads;
    var s;
    schedule, s := Begin(SHIPPED);
    schedule, s := Then(SHIPPED, schedule, s, Enter(Admit));
    SyncNumber(s);
    schedule, s := Then(SHIPPED, schedule, s, Enter(Number(true, true)));
    schedule, s := Then(SHIPPED, schedule, s, Enter(Register(0)));
    assert s == Lone(true, Registered, NotStarted, UNTOLD, map[0 := 0], Top);
    schedule, s := Then(SHIPPED, schedule, s, Enter(Write(0, true)));
    assert s == Lone(true, Written, NotStarted, QUEUED, map[0 := 0], Top);
    schedule, s := Then(SHIPPED, schedule, s, Leave(Recheck(0)));
    assert s == Lone(false, Waiting, NotStarted, QUEUED, map[0 := 0], Top);
  }

  lemma StartedRead() returns (schedule: seq<Step>)
    ensures Leads(SHIPPED, schedule, Lone(false, Waiting, Active, STARTED, map[], AwaitRead(0)))
  {
    hide Leads;
    schedule := WaitingRequest();
    var s := Lone(false, Waiting, NotStarted, QUEUED, map[0 := 0], Top);
    schedule, s := Then(SHIPPED, schedule, s, Message(TestRunning));
    schedule, s := Then(SHIPPED, schedule, s, Message(ReadMessage(0, Success)));
    schedule, s := Then(SHIPPED, schedule, s, Message(PopReply));
    assert s == Lone(false, Waiting, NotStarted, QUEUED.(answer := Was(Success)), map[], AwaitReady(0));
    schedule, s := Then(SHIPPED, schedule, s, Reply(Ready(Success)));
    schedule, s := Then(SHIPPED, schedule, s, Reply(Start(Success)));
    assert s == Lone(false, Waiting, Active, STARTED, map[], AwaitRead(0));
  }

  /** It can happen to a request exactly when it has read buffers. */
  lemma TimeoutOvertakesRead(hasReads: bool)
    ensures (exists schedule, t: Token :: Overtaken(schedule, hasReads, t)) <==> hasReads
  {
    if hasReads {
      var schedule := StartedRead();
      var s := Lone(false, Waiting, Active, STARTED, map[], AwaitRead(0));
      schedule, s := Then(SHIPPED, schedule, s, Leave(WaitTimesOut(0)));
      assert Overtaken(schedule, true, 0);
    } else {
      forall schedule, t: Token | Overtaken(schedule, false, t)
        ensures false
      {
        ReadsLeftBehind(schedule, t);
      }
    }
  }
}
