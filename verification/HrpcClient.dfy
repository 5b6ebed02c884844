/**
 The reply protocol of the hRPC client: any number of requester threads, one message-loop
 thread, the transfer engine and the destructor, interleaved at every access to shared state.

 A request that took a message id is named by its token, the number of ids handed out before it.
 Each operation of the pending-reply map is one step, and so is each access to `m_is_running`.
 A request refused at the first `m_is_running` test registers nothing and leaves no trace here.
 */
module HrpcClient {
  type Token = nat

  const ID_SPACE: nat := 0x1_0000_0000  // message_id_t is uint32_t

  datatype Status = Success | Timeout | Closed | Failed

  datatype Outcome =
    | NoBuffer   // no message buffer: nothing was registered
    | Rejected   // the request failed after it was registered
    | Accepted   // execute_request_async returned success
    | Replied    // execute_request took its reply
    | TimedOut   // execute_request gave up waiting

  datatype Caller =
    | Numbered                   // took an id, holds the write mutex
    | Registered                 // emplaced its reply data
    | Written                    // the write was queued; m_is_running is to be read again
    | Withdrawing(queued: bool)  // about to pop its own reply data
    | Owning(queued: bool)       // popped it: the callback belongs to the caller
    | Waiting                    // execute_request only: waits for its callback
    | Returned(outcome: Outcome)

  /** The transfer that reads the additional buffers of a reply. */
  datatype Transfer = NotStarted | Active | Ended(status: Status)

  datatype Record = Never | Was(status: Status)

  /** History of a request: how its write went, what its reply said, how far its read came, what it was told. */
  datatype Tale = Tale(queued: bool, answer: Record, ready: Record, began: Record, told: Record)

  const UNTOLD := Tale(false, Never, Never, Never, Never)

  datatype Request = Request(
    id: nat,
    sync: bool,
    hasReads: bool,
    pc: Caller,
    read: Transfer,
    writing: bool,    // the queued write may still use its buffers
    parked: nat,      // its entries in m_parked_replies
    stuck: bool,      // history: the started read was reported as timed out
    discarded: bool,  // history: the reply data was destroyed and its callback had not run
    runs: nat,        // history: executions of the callback
    tale: Tale)       // history

  datatype Loop =
    | Top | Reading
    | Popping(id: nat, status: Status)     // the status in the header of the reply
    | AwaitReady(t: Token) | Starting(t: Token) | AwaitRead(t: Token)
    | Calling(t: Token, status: Status)    // callback, then the next message
    | Reporting(t: Token, status: Status)  // callback with an error, then the loop returns
    | Parking(t: Token)                    // no callback: the started read timed out
    | Exited | Stopped | Draining(rest: set<Token>) | Finished

  datatype Destructor = Alive | Stopping | Closing | ConnectionClosed | Joined | Destroyed

  datatype State = State(
    running: bool,              // m_is_running
    admitted: nat,              // callers past the first m_is_running test
    writer: bool,               // m_write_mutex is taken
    requests: seq<Request>,
    replies: map<nat, Token>,   // m_reply_data
    loop: Loop,
    dtor: Destructor,
    broken: bool)               // history: a read of a message or of the buffers of a reply failed

  const INITIAL := State(true, 0, false, [], map[], Top, Alive, false)

  /** `recheck`: the caller reads m_is_running again after it wrote the request.
      `stopFirst`: the loop thread clears m_is_running before it drains, not after. */
  datatype Protocol = Protocol(recheck: bool, stopFirst: bool)

  const SHIPPED := Protocol(true, true)

  /** A request from the first m_is_running test to its queued write. */
  datatype EnterStep =
    | Admit | Number(sync: bool, hasReads: bool) | BufferFails(t: Token) | Register(t: Token)
    | Write(t: Token, ok: bool)

  /** The rest of execute_request_async_impl, and the wait of execute_request. */
  datatype LeaveStep =
    | Recheck(t: Token) | Withdraw(t: Token) | GiveUp(t: Token) | TakeReply(t: Token) | WaitTimesOut(t: Token)

  /** message_loop, up to the reply data of a message. */
  datatype MessageStep = TestRunning | ReadFails | ReadMessage(id: nat, status: Status) | PopReply

  /** message_loop with the reply data in hand. */
  datatype ReplyStep = Ready(status: Status) | Start(status: Status) | ReadEnds | ReadTimesOut | Call | Report | Park

  /** The end of the loop thread. */
  datatype DrainStep = Stop | PopAll | DrainOne(t: Token) | Finish

  /** The transfer engine and the destructor. */
  datatype OutsideStep =
    | ReadDone(t: Token, status: Status) | WriteDone(t: Token)
    | ClearRunning | BeginClose | EndClose | Join | DropParked

  datatype Step =
    | Enter(e: EnterStep) | Leave(v: LeaveStep) | Message(m: MessageStep) | Reply(r: ReplyStep)
    | Drain(d: DrainStep) | Outside(o: OutsideStep)

  predicate Inside(s: State, t: Token, pc: Caller) { t < |s.requests| && s.requests[t].pc == pc }

  predicate Pending(s: State, t: Token)
    requires t < |s.requests|
  {
    s.requests[t].id in s.replies && s.replies[s.requests[t].id] == t
  }

  /** The assumption on message ids: an id comes back only when nobody still uses it. */
  ghost predicate IdIsFree(s: State, id: nat) {
    && id !in s.replies
    && forall u | 0 <= u < |s.requests| && s.requests[u].id == id :: s.requests[u].pc.Returned?
  }

  function Set(s: State, t: Token, r: Request): State
    requires t < |s.requests|
  {
    s.(requests := s.requests[t := r])
  }

  // ---------------------------------------------------------------- requesters

  ghost predicate CanEnter(s: State, step: EnterStep) {
    match step
    case Admit => s.running
    case Number(_, _) => s.admitted > 0 && !s.writer && IdIsFree(s, |s.requests| % ID_SPACE)
    case BufferFails(t) => Inside(s, t, Numbered)
    case Register(t) => Inside(s, t, Numbered)
    case Write(t, ok) => Inside(s, t, Registered) && (ok ==> s.dtor.Alive? || s.dtor.Stopping?)
  }

  predicate CanLeave(s: State, step: LeaveStep) {
    match step
    case Recheck(t) => Inside(s, t, Written)
    case Withdraw(t) => t < |s.requests| && s.requests[t].pc.Withdrawing?
    case GiveUp(t) => t < |s.requests| && s.requests[t].pc.Owning?
    case TakeReply(t) => Inside(s, t, Waiting) && s.requests[t].runs > 0
    case WaitTimesOut(t) => Inside(s, t, Waiting) && s.requests[t].runs == 0
  }

  /** execute_request_async_impl returned an id: the synchronous form goes on to wait. */
  function Issued(r: Request): Request {
    r.(pc := if r.sync then Waiting else Returned(Accepted))
  }

  function DoEnter(s: State, step: EnterStep): State
    requires CanEnter(s, step)
  {
    match step
    case Admit => s.(admitted := s.admitted + 1)
    case Number(sync, hasReads) =>
      var id := |s.requests| % ID_SPACE;
      var r := Request(id, sync, hasReads, Numbered, NotStarted, false, 0, false, false, 0, UNTOLD);
      s.(admitted := s.admitted - 1, writer := true, requests := s.requests + [r])
    case BufferFails(t) => Set(s, t, s.requests[t].(pc := Returned(NoBuffer))).(writer := false)
    case Register(t) =>
      Set(s, t, s.requests[t].(pc := Registered)).(replies := s.replies[s.requests[t].id := t])
    case Write(t, ok) =>
      var r := s.requests[t];
      Set(s, t, if ok then r.(pc := Written, writing := true, tale := r.tale.(queued := true))
                else r.(pc := Withdrawing(false)))
  }

  function DoLeave(p: Protocol, s: State, step: LeaveStep): State
    requires CanLeave(s, step)
  {
    match step
    case Recheck(t) =>
      if p.recheck && !s.running then Set(s, t, s.requests[t].(pc := Withdrawing(true)))
      else Set(s, t, Issued(s.requests[t])).(writer := false)
    case Withdraw(t) =>
      var r := s.requests[t];
      if r.id in s.replies
      then Set(s, t, r.(pc := Owning(r.pc.queued))).(replies := s.replies - {r.id})
      else Set(s, t, Issued(r)).(writer := false)
    case GiveUp(t) =>
      var r := s.requests[t].(pc := Returned(Rejected));
      Set(s, t, if s.requests[t].pc.queued then r.(parked := r.parked + 1) else r.(discarded := true)).(writer := false)
    case TakeReply(t) => Set(s, t, s.requests[t].(pc := Returned(Replied)))
    case WaitTimesOut(t) =>
      var r := s.requests[t].(pc := Returned(TimedOut));
      if Pending(s, t)
      then Set(s, t, r.(discarded := true)).(replies := s.replies - {r.id})
      else Set(s, t, r)
  }

  // ---------------------------------------------------------------- message loop

  predicate CanMessage(s: State, step: MessageStep) {
    match step
    case TestRunning => s.loop.Top?
    case ReadFails => s.loop.Reading?
    case ReadMessage(_, _) => s.loop.Reading?
    case PopReply => s.loop.Popping? && (s.loop.id in s.replies ==> s.replies[s.loop.id] < |s.requests|)
  }

  /** The loop has the reply data of a request in hand. */
  predicate InHand(loop: Loop) {
    loop.AwaitReady? || loop.Starting? || loop.AwaitRead? || loop.Calling? || loop.Reporting? || loop.Parking?
  }

  predicate Fits(r: Request, loop: Loop, open: bool, step: ReplyStep) {
    match step
    case Ready(_) => loop.AwaitReady?
    case Start(status) => loop.Starting? && (status == Success ==> open)
    case ReadEnds => loop.AwaitRead? && r.read.Ended?
    case ReadTimesOut => loop.AwaitRead? && !r.read.Ended?
    case Call => loop.Calling?
    case Report => loop.Reporting?
    case Park => loop.Parking?
  }

  predicate CanReply(s: State, step: ReplyStep) {
    && InHand(s.loop) && s.loop.t < |s.requests|
    && Fits(s.requests[s.loop.t], s.loop, s.dtor.Alive? || s.dtor.Stopping?, step)
  }

  predicate CanDrain(s: State, step: DrainStep) {
    match step
    case Stop => s.loop.Exited?
    case PopAll => s.loop.Stopped?
    case DrainOne(t) => s.loop.Draining? && t in s.loop.rest && t < |s.requests|
    case Finish => s.loop == Draining({})
  }

  function RunCallback(r: Request, status: Status): Request {
    r.(runs := r.runs + 1, tale := r.tale.(told := Was(status)))
  }

  function DoMessage(s: State, step: MessageStep): State
    requires CanMessage(s, step)
  {
    match step
    case TestRunning => s.(loop := if s.running then Reading else Exited)
    case ReadFails => s.(loop := Exited, broken := true)
    case ReadMessage(id, status) => s.(loop := Popping(id, status))
    case PopReply =>
      if s.loop.id !in s.replies then s.(loop := Top)
      else
        var t, status := s.replies[s.loop.id], s.loop.status;
        var r := s.requests[t];
        Set(s, t, r.(tale := r.tale.(answer := Was(status)))).(
          replies := s.replies - {s.loop.id},
          loop := if status == Success && r.hasReads then AwaitReady(t) else Calling(t, status))
  }

  /** The additional buffers were read, or not: where the loop goes. */
  function AfterRead(t: Token, status: Status): Loop {
    match status
    case Success => Calling(t, Success)
    case Timeout => Parking(t)
    case _ => Reporting(t, status)
  }

  /** What a step makes of the request in hand. */
  function Touched(r: Request, loop: Loop, open: bool, step: ReplyStep): Request
    requires InHand(loop) && Fits(r, loop, open, step)
  {
    match step
    case Ready(status) => r.(tale := r.tale.(ready := Was(status)))
    case Start(status) =>
      r.(tale := r.tale.(began := Was(status)),
         read := if status == Success then Active else r.read, stuck := r.stuck || status == Timeout)
    case ReadEnds => r.(stuck := r.stuck || r.read.status == Timeout)
    case ReadTimesOut => r.(stuck := true)
    case Call => RunCallback(r, loop.status)
    case Report => RunCallback(r, loop.status)
    case Park => r.(parked := r.parked + 1)
  }

  function Onward(r: Request, loop: Loop, open: bool, step: ReplyStep): Loop
    requires InHand(loop) && Fits(r, loop, open, step)
  {
    match step
    case Ready(status) => if status == Success then Starting(loop.t) else Reporting(loop.t, status)
    case Start(status) => if status == Success then AwaitRead(loop.t) else AfterRead(loop.t, status)
    case ReadEnds => AfterRead(loop.t, r.read.status)
    case ReadTimesOut => AfterRead(loop.t, Timeout)
    case Call => Top
    case Report => Exited
    case Park => Exited
  }

  function DoReply(s: State, step: ReplyStep): State
    requires CanReply(s, step)
  {
    var r, open := s.requests[s.loop.t], s.dtor.Alive? || s.dtor.Stopping?;
    Set(s, s.loop.t, Touched(r, s.loop, open, step)).(
      loop := Onward(r, s.loop, open, step), broken := s.broken || step.Report? || step.Park?)
  }

  function DoDrain(p: Protocol, s: State, step: DrainStep): State
    requires CanDrain(s, step)
  {
    match step
    case Stop => s.(loop := Stopped, running := s.running && !p.stopFirst)
    case PopAll => s.(loop := Draining(s.replies.Values), replies := map[])
    case DrainOne(t) => Set(s, t, RunCallback(s.requests[t], Closed)).(loop := Draining(s.loop.rest - {t}))
    case Finish => s.(loop := Finished, running := false)
  }

  // ---------------------------------------------------------------- transfers and destructor

  /** Closing the connection ends when no transfer is left. */
  ghost predicate NoTransfers(s: State) {
    forall t | 0 <= t < |s.requests| :: !s.requests[t].read.Active? && !s.requests[t].writing
  }

  ghost predicate CanOutside(s: State, step: OutsideStep) {
    match step
    case ReadDone(t, _) => t < |s.requests| && s.requests[t].read.Active?
    case WriteDone(t) => t < |s.requests| && s.requests[t].writing
    case ClearRunning => s.dtor.Alive?
    case BeginClose => s.dtor.Stopping?
    case EndClose => s.dtor.Closing? && NoTransfers(s)
    case Join => s.dtor.ConnectionClosed? && s.loop.Finished?
    case DropParked => s.dtor.Joined?
  }

  function DoOutside(s: State, step: OutsideStep): State
    requires CanOutside(s, step)
  {
    match step
    case ReadDone(t, status) => Set(s, t, s.requests[t].(read := Ended(status)))
    case WriteDone(t) => Set(s, t, s.requests[t].(writing := false))
    case ClearRunning => s.(running := false, dtor := Stopping)
    case BeginClose => s.(dtor := Closing)
    case EndClose => s.(dtor := ConnectionClosed)
    case Join => s.(dtor := Joined)
    case DropParked =>
      s.(dtor := Destroyed, requests := seq(|s.requests|, t requires 0 <= t < |s.requests| =>
           s.requests[t].(parked := 0, discarded := s.requests[t].discarded || s.requests[t].parked > 0)))
  }

  // ---------------------------------------------------------------- runs

  ghost predicate Enabled(s: State, step: Step) {
    match step
    case Enter(e) => CanEnter(s, e)
    case Leave(v) => CanLeave(s, v)
    case Message(m) => CanMessage(s, m)
    case Reply(r) => CanReply(s, r)
    case Drain(d) => CanDrain(s, d)
    case Outside(o) => CanOutside(s, o)
  }

  ghost function Apply(p: Protocol, s: State, step: Step): State
    requires Enabled(s, step)
  {
    match step
    case Enter(e) => DoEnter(s, e)
    case Leave(v) => DoLeave(p, s, v)
    case Message(m) => DoMessage(s, m)
    case Reply(r) => DoReply(s, r)
    case Drain(d) => DoDrain(p, s, d)
    case Outside(o) => DoOutside(s, o)
  }

  /** Every step of the schedule is possible where it is taken, starting from `s`. */
  ghost predicate Feasible(p: Protocol, s: State, schedule: seq<Step>)
    decreases |schedule|
  {
    schedule == [] || (Enabled(s, schedule[0]) && Feasible(p, Apply(p, s, schedule[0]), schedule[1..]))
  }

  ghost function Run(p: Protocol, s: State, schedule: seq<Step>): State
    requires Feasible(p, s, schedule)
    decreases |schedule|
  {
    if schedule == [] then s else Run(p, Apply(p, s, schedule[0]), schedule[1..])
  }
}
