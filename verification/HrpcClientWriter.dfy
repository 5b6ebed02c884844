/**
 The write mutex: one caller at a time between its message id and its return, so requests are written in the order of
 their ids.
 */
module HrpcClientWriter {
  import opened HrpcClient
  import opened HrpcClientProofs

  /** The caller owns the write mutex. */
  predicate Writes(r: Request) {
    r.pc.Numbered? || r.pc.Registered? || r.pc.Written? || r.pc.Withdrawing? || r.pc.Owning?
  }

  /** Only the caller with the newest id may own it, and nobody else has it taken. */
  ghost predicate OneWriter(s: State) {
    && (forall t | 0 <= t < |s.requests| && Writes(s.requests[t]) :: t == |s.requests| - 1)
    && (s.writer <==> s.requests != [] && Writes(s.requests[|s.requests| - 1]))
  }

  /** A step that leaves every caller where it was. */
  lemma SameCallers(s: State, s': State)
    requires OneWriter(s) && s'.writer == s.writer && |s'.requests| == |s.requests|
    requires forall t | 0 <= t < |s.requests| :: s'.requests[t].pc == s.requests[t].pc
    ensures OneWriter(s')
  {
  }

  lemma EnterKeepsWriter(s: State, step: EnterStep)
    requires OneWriter(s) && CanEnter(s, step)
    ensures OneWriter(DoEnter(s, step))
  {
    hide IdIsFree;
  }

  /** The caller gives the mutex back as it leaves, or keeps it. */
  lemma LeaveMoves(p: Protocol, s: State, step: LeaveStep)
    requires CanLeave(s, step)
    ensures var s', r := DoLeave(p, s, step), s.requests[step.t];
      && |s'.requests| == |s.requests|
      && (forall t | 0 <= t < |s.requests| && t != step.t :: s'.requests[t] == s.requests[t])
      && (if Writes(r) && !Writes(s'.requests[step.t]) then !s'.writer
          else s'.writer == s.writer && Writes(s'.requests[step.t]) == Writes(r))
  {
    hide Pending;
  }

  lemma LeaveKeepsWriter(p: Protocol, s: State, step: LeaveStep)
    requires OneWriter(s) && CanLeave(s, step)
    ensures OneWriter(DoLeave(p, s, step))
  {
    hide Writes, DoLeave;
    LeaveMoves(p, s, step);
  }

  lemma ReplyKeepsWriter(s: State, step: ReplyStep)
    requires OneWriter(s) && CanReply(s, step)
    ensures OneWriter(DoReply(s, step))
  {
    hide OneWriter, Fits, Touched, Onward;
    var s', r, open := DoReply(s, step), s.requests[s.loop.t], s.dtor.Alive? || s.dtor.Stopping?;
    TouchedKeeps(r, s.loop, open, step);
    SameCallers(s, s');
  }

  lemma OutsideKeepsWriter(s: State, step: OutsideStep)
    requires OneWriter(s) && CanOutside(s, step)
    ensures OneWriter(DoOutside(s, step))
  {
    hide OneWriter, NoTransfers;
    SameCallers(s, DoOutside(s, step));
  }

  lemma StepKeepsWriter(p: Protocol, s: State, step: Step)
    requires OneWriter(s) && Enabled(s, step)
    ensures OneWriter(Apply(p, s, step))
  {
    hide OneWriter, DoEnter, DoLeave, DoReply, DoOutside, CanEnter, CanLeave, CanReply, CanOutside;
    match step
    case Enter(e) => EnterKeepsWriter(s, e);
    case Leave(v) => LeaveKeepsWriter(p, s, v);
    case Reply(r) => ReplyKeepsWriter(s, r);
    case Outside(o) => OutsideKeepsWriter(s, o);
    case _ => SameCallers(s, Apply(p, s, step));
  }

  lemma {:induction false} RunKeepsWriter(p: Protocol, s: State, schedule: seq<Step>)
    requires OneWriter(s) && Feasible(p, s, schedule)
    ensures OneWriter(Run(p, s, schedule))
    decreases |schedule|
  {
    hide OneWriter, Enabled, Apply;
    if schedule != [] {
      StepKeepsWriter(p, s, schedule[0]);
      RunKeepsWriter(p, Apply(p, s, schedule[0]), schedule[1..]);
    }
  }

  /** In every run, the mutex is taken exactly while the request with the newest id is on its way into or out of the
      client, and every older request has left: it waits for its reply or has returned. */
  lemma RequestsAreWrittenInOrder(p: Protocol, schedule: seq<Step>, t: Token)
    requires Feasible(p, INITIAL, schedule) && t < |Run(p, INITIAL, schedule).requests|
    ensures var s := Run(p, INITIAL, schedule);
      && (s.writer <==> Writes(s.requests[|s.requests| - 1]))
      && (t < |s.requests| - 1 ==> s.requests[t].pc.Waiting? || s.requests[t].pc.Returned?)
  {
    RunKeepsWriter(p, INITIAL, schedule);
    assert Writes(Run(p, INITIAL, schedule).requests[t]) ==> t == |Run(p, INITIAL, schedule).requests| - 1;
  }
}
