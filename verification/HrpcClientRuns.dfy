/**
 What the client gets done: from every state of every run, a request, its reply, the final drain and the destructor
 go through when nobody interferes, and end as promised.
 */
module HrpcClientRuns {
  import opened HrpcClient
  import opened HrpcClientProofs
  import opened Wrappers

  /** The schedule leads from `s` to `s'`. */
  ghost predicate Goes(s: State, schedule: seq<Step>, s': State) {
    Feasible(SHIPPED, s, schedule) && Run(SHIPPED, s, schedule) == s'
  }

  lemma Stay(s: State)
    ensures Goes(s, [], s)
  {
  }

  lemma First(s: State, step: Step, next: State, rest: seq<Step>, s': State)
    requires Enabled(s, step) && Apply(SHIPPED, s, step) == next && Goes(next, rest, s')
    ensures Goes(s, [step] + rest, s')
  {
    assert ([step] + rest)[0] == step && ([step] + rest)[1..] == rest;
  }

  lemma Two(s: State, a: Step, s1: State, b: Step, s2: State)
    requires Enabled(s, a) && Apply(SHIPPED, s, a) == s1 && Enabled(s1, b) && Apply(SHIPPED, s1, b) == s2
    ensures Goes(s, [a, b], s2)
  {
    hide Goes, Enabled, Apply;
    Stay(s2);
    First(s1, b, s2, [], s2);
    First(s, a, s1, [b] + [], s2);
    assert [a] + ([b] + []) == [a, b];
  }

  lemma Three(s: State, a: Step, s1: State, b: Step, s2: State, c: Step, s3: State)
    requires Enabled(s, a) && Apply(SHIPPED, s, a) == s1 && Enabled(s1, b) && Apply(SHIPPED, s1, b) == s2
    requires Enabled(s2, c) && Apply(SHIPPED, s2, c) == s3
    ensures Goes(s, [a, b, c], s3)
  {
    hide Goes, Enabled, Apply;
    Two(s1, b, s2, c, s3);
    First(s, a, s1, [b, c], s3);
    assert [a] + [b, c] == [a, b, c];
  }

  lemma {:induction false} Concat(s: State, a: seq<Step>, mid: State, b: seq<Step>, s': State)
    requires Goes(s, a, mid) && Goes(mid, b, s')
    ensures Goes(s, a + b, s')
    decreases |a|
  {
    if a == [] {
      assert a + b == b;
    } else {
      var next := Apply(SHIPPED, s, a[0]);
      Concat(next, a[1..], mid, b, s');
      First(s, a[0], next, a[1..] + b, s');
      assert [a[0]] + (a[1..] + b) == a + b;
    }
  }

  // ---------------------------------------------------------------- a request

  /** The request that takes the next id. */
  function Next(s: State, sync: bool, hasReads: bool, pc: Caller): Request {
    Request(|s.requests| % ID_SPACE, sync, hasReads, pc, NotStarted, false, 0, false, false, 0, UNTOLD)
  }

  /** The steps up to the write. */
  function Entering(t: Token, sync: bool, hasReads: bool): seq<Step> {
    [Enter(Admit), Enter(Number(sync, hasReads)), Enter(Register(t))]
  }

  function Entered(s: State, sync: bool, hasReads: bool): State {
    s.(writer := true, requests := s.requests + [Next(s, sync, hasReads, Registered)],
       replies := s.replies[|s.requests| % ID_SPACE := |s.requests|])
  }

  lemma SameIds(s: State, s': State, id: nat)
    requires IdIsFree(s, id) && s'.replies == s.replies && s'.requests == s.requests
    ensures IdIsFree(s', id)
  {
  }

  ghost predicate CanRequest(s: State) {
    s.running && !s.writer && (s.dtor.Alive? || s.dtor.Stopping?) && IdIsFree(s, |s.requests| % ID_SPACE)
  }

  lemma RequestEnters(s: State, sync: bool, hasReads: bool)
    requires CanRequest(s)
    ensures Goes(s, Entering(|s.requests|, sync, hasReads), Entered(s, sync, hasReads))
  {
    hide Goes, IdIsFree;
    var t, number := |s.requests|, Enter(Number(sync, hasReads));
    var s1 := s.(admitted := s.admitted + 1);
    var s2 := s.(writer := true, requests := s.requests + [Next(s, sync, hasReads, Numbered)]);
    var s3 := Entered(s, sync, hasReads);
    SameIds(s, s1, t % ID_SPACE);
    assert DoEnter(s2, Register(t)).requests == s3.requests;
    Three(s, Enter(Admit), s1, number, s2, Enter(Register(t)), s3);
  }

  function Writing(r: Request): Request { r.(writing := true, tale := r.tale.(queued := true)) }

  /** A request goes through while the client runs: it ends accepted, or waiting for its reply, with its reply data in
      the map and its write queued, and nothing else has changed. */
  lemma RequestGoesThrough(s: State, sync: bool, hasReads: bool)
    requires CanRequest(s)
    ensures var t := |s.requests|;
      var r := Writing(Next(s, sync, hasReads, if sync then Waiting else Returned(Accepted)));
      Goes(s, Entering(t, sync, hasReads) + [Enter(Write(t, true)), Leave(Recheck(t))],
           s.(requests := s.requests + [r], replies := s.replies[t % ID_SPACE := t]))
  {
    hide Goes, IdIsFree;
    var t := |s.requests|;
    var r := Next(s, sync, hasReads, if sync then Waiting else Returned(Accepted));
    var s3 := Entered(s, sync, hasReads);
    var s4 := s3.(requests := s.requests + [Writing(r.(pc := Written))]);
    var s5 := s4.(requests := s.requests + [Writing(r)], writer := false);
    assert DoEnter(s3, Write(t, true)).requests == s4.requests;
    assert DoLeave(SHIPPED, s4, Recheck(t)).requests == s5.requests;
    RequestEnters(s, sync, hasReads);
    Two(s3, Enter(Write(t, true)), s4, Leave(Recheck(t)), s5);
    Concat(s, Entering(t, sync, hasReads), s3, [Enter(Write(t, true)), Leave(Recheck(t))], s5);
  }

  /** When the write fails, the request takes its reply data back and is rejected. */
  lemma FailedWriteIsRejected(s: State, sync: bool, hasReads: bool)
    requires CanRequest(s)
    ensures var t := |s.requests|;
      var r := Next(s, sync, hasReads, Returned(Rejected)).(discarded := true);
      Goes(s, Entering(t, sync, hasReads) + [Enter(Write(t, false)), Leave(Withdraw(t)), Leave(GiveUp(t))],
           s.(requests := s.requests + [r], replies := s.replies))
  {
    hide Goes;
    var t := |s.requests|;
    var s3 := Entered(s, sync, hasReads);
    var s4 := s3.(requests := s.requests + [Next(s, sync, hasReads, Withdrawing(false))]);
    var s5 := s4.(requests := s.requests + [Next(s, sync, hasReads, Owning(false))], replies := s.replies);
    var s6 := s5.(requests := s.requests + [Next(s, sync, hasReads, Returned(Rejected)).(discarded := true)],
                  writer := false);
    assert DoEnter(s3, Write(t, false)).requests == s4.requests;
    assert DoLeave(SHIPPED, s4, Withdraw(t)).requests == s5.requests;
    assert s4.replies - {t % ID_SPACE} == s.replies;
    assert DoLeave(SHIPPED, s5, GiveUp(t)).requests == s6.requests;
    RequestEnters(s, sync, hasReads);
    Three(s3, Enter(Write(t, false)), s4, Leave(Withdraw(t)), s5, Leave(GiveUp(t)), s6);
    Concat(s, Entering(t, sync, hasReads), s3, [Enter(Write(t, false)), Leave(Withdraw(t)), Leave(GiveUp(t))], s6);
  }

  /** The caller of `t` finds the client stopped. */
  lemma CallerGivesUp(s: State, t: Token)
    requires Inside(s, t, Written) && !s.running && s.requests[t].id in s.replies
    ensures var r := s.requests[t];
      Goes(s, [Leave(Recheck(t)), Leave(Withdraw(t)), Leave(GiveUp(t))],
           s.(requests := s.requests[t := r.(pc := Returned(Rejected), parked := r.parked + 1)],
              replies := s.replies - {r.id}, writer := false))
  {
    hide Goes;
    var r := s.requests[t];
    var s1 := s.(requests := s.requests[t := r.(pc := Withdrawing(true))]);
    var s2 := s.(requests := s.requests[t := r.(pc := Owning(true))], replies := s.replies - {r.id});
    var s3 := s2.(requests := s.requests[t := r.(pc := Returned(Rejected), parked := r.parked + 1)], writer := false);
    assert s1.requests[t := r.(pc := Owning(true))] == s2.requests;
    assert s2.requests[t := r.(pc := Returned(Rejected), parked := r.parked + 1)] == s3.requests;
    Three(s, Leave(Recheck(t)), s1, Leave(Withdraw(t)), s2, Leave(GiveUp(t)), s3);
  }

  /** A request that finds the client stopped after its write was queued parks its reply data and is rejected. */
  lemma LateRequestIsParked(s: State, sync: bool, hasReads: bool)
    requires CanRequest(s) && s.dtor.Alive?
    ensures var t := |s.requests|;
      var r := Writing(Next(s, sync, hasReads, Returned(Rejected))).(parked := 1);
      Goes(s, Entering(t, sync, hasReads) + [Enter(Write(t, true)), Outside(ClearRunning)]
              + [Leave(Recheck(t)), Leave(Withdraw(t)), Leave(GiveUp(t))],
           s.(requests := s.requests + [r], running := false, dtor := Stopping))
  {
    assert |s.requests| % ID_SPACE !in s.replies;
    hide Goes, IdIsFree;
    var t := |s.requests|;
    var r := Writing(Next(s, sync, hasReads, Written));
    var s3 := Entered(s, sync, hasReads);
    var s4 := s3.(requests := s.requests + [r]);
    var s5 := s4.(running := false, dtor := Stopping);
    RequestEnters(s, sync, hasReads);
    assert DoEnter(s3, Write(t, true)).requests == s4.requests;
    Two(s3, Enter(Write(t, true)), s4, Outside(ClearRunning), s5);
    CallerGivesUp(s5, t);
    var s8 := s5.(requests := s5.requests[t := r.(pc := Returned(Rejected), parked := 1)],
                  replies := s5.replies - {r.id}, writer := false);
    Concat(s, Entering(t, sync, hasReads), s3, [Enter(Write(t, true)), Outside(ClearRunning)], s5);
    Concat(s, Entering(t, sync, hasReads) + [Enter(Write(t, true)), Outside(ClearRunning)], s5,
           [Leave(Recheck(t)), Leave(Withdraw(t)), Leave(GiveUp(t))], s8);
    assert s5.replies - {r.id} == s.replies;
    assert s8.requests == s.requests + [r.(pc := Returned(Rejected), parked := 1)];
  }

  // ---------------------------------------------------------------- a reply

  /** The reply of a pending request reaches its callback with its own status, and the loop goes on, when there is
      nothing to read. */
  lemma ReplyReachesCallback(s: State, t: Token, status: Status)
    requires Shape(s) && s.loop.Reading? && t < |s.requests| && Pending(s, t)
    requires status != Success || !s.requests[t].hasReads
    ensures var r := s.requests[t];
      var told := r.(runs := r.runs + 1, tale := r.tale.(answer := Was(status), told := Was(status)));
      Goes(s, [Message(ReadMessage(r.id, status)), Message(PopReply), Reply(Call)],
           s.(requests := s.requests[t := told], replies := s.replies - {r.id}, loop := Top))
  {
    hide Goes, Shape;
    var r := s.requests[t];
    var s1 := s.(loop := Popping(r.id, status));
    var s2 := s.(requests := s.requests[t := r.(tale := r.tale.(answer := Was(status)))],
                 replies := s.replies - {r.id}, loop := Calling(t, status));
    var s3 := Apply(SHIPPED, s2, Reply(Call));
    var told := r.(runs := r.runs + 1, tale := r.tale.(answer := Was(status), told := Was(status)));
    assert s3.requests == s.requests[t := told];
    Three(s, Message(ReadMessage(r.id, status)), s1, Message(PopReply), s2, Reply(Call), s3);
  }

  /** A reply that belongs to nobody is dropped. */
  lemma StrangeReplyIsDropped(s: State, id: nat, status: Status)
    requires s.loop.Reading? && id !in s.replies
    ensures Goes(s, [Message(ReadMessage(id, status)), Message(PopReply)], s.(loop := Top))
  {
    hide Goes;
    Two(s, Message(ReadMessage(id, status)), s.(loop := Popping(id, status)), Message(PopReply), s.(loop := Top));
  }

  /** So is the reply of a synchronous request that gave up. */
  lemma LateReplyIsDropped(s: State, t: Token, status: Status)
    requires s.loop.Reading? && Inside(s, t, Waiting) && s.requests[t].runs == 0 && Pending(s, t)
    ensures var r := s.requests[t];
      Goes(s, [Leave(WaitTimesOut(t)), Message(ReadMessage(r.id, status)), Message(PopReply)],
           s.(requests := s.requests[t := r.(pc := Returned(TimedOut), discarded := true)],
              replies := s.replies - {r.id}, loop := Top))
  {
    hide Goes;
    var r := s.requests[t];
    var s1 := s.(requests := s.requests[t := r.(pc := Returned(TimedOut), discarded := true)],
                 replies := s.replies - {r.id});
    Three(s, Leave(WaitTimesOut(t)), s1, Message(ReadMessage(r.id, status)), s1.(loop := Popping(r.id, status)),
          Message(PopReply), s1.(loop := Top));
  }

  /** The reply with status success of a request with read buffers, and how the wait for them ended. */
  function Awaited(s: State, t: Token, ready: Status): State
    requires t < |s.requests|
  {
    var r := s.requests[t];
    Set(s, t, r.(tale := r.tale.(answer := Was(Success), ready := Was(ready)))).(
      replies := s.replies - {r.id}, loop := if ready == Success then Starting(t) else Reporting(t, ready))
  }

  lemma ReplyIsAwaited(s: State, t: Token, ready: Status)
    requires Shape(s) && s.loop.Reading? && t < |s.requests| && Pending(s, t) && s.requests[t].hasReads
    ensures Goes(s, [Message(ReadMessage(s.requests[t].id, Success)), Message(PopReply), Reply(Ready(ready))],
                 Awaited(s, t, ready))
  {
    hide Goes, Shape;
    var r := s.requests[t];
    var s1 := s.(loop := Popping(r.id, Success));
    var s2 := Set(s, t, r.(tale := r.tale.(answer := Was(Success)))).(
      replies := s.replies - {r.id}, loop := AwaitReady(t));
    assert DoReply(s2, Ready(ready)).requests == Awaited(s, t, ready).requests;
    Three(s, Message(ReadMessage(r.id, Success)), s1, Message(PopReply), s2, Reply(Ready(ready)), Awaited(s, t, ready));
  }

  /** When the wait fails, in whatever way, the callback is told so and the loop ends. */
  lemma FailedWaitIsReported(s: State, t: Token, ready: Status)
    requires Shape(s) && s.loop.Reading? && t < |s.requests| && Pending(s, t) && s.requests[t].hasReads
    requires ready != Success
    ensures var r := s.requests[t];
      var told := r.(runs := r.runs + 1,
                     tale := r.tale.(answer := Was(Success), ready := Was(ready), told := Was(ready)));
      Goes(s, [Message(ReadMessage(r.id, Success)), Message(PopReply), Reply(Ready(ready))] + [Reply(Report)],
           s.(requests := s.requests[t := told], replies := s.replies - {r.id}, loop := Exited, broken := true))
  {
    hide Goes, Shape;
    var r, s1 := s.requests[t], Awaited(s, t, ready);
    var s2 := Apply(SHIPPED, s1, Reply(Report));
    ReplyIsAwaited(s, t, ready);
    Stay(s2);
    First(s1, Reply(Report), s2, [], s2);
    assert [Reply(Report)] + [] == [Reply(Report)];
    Concat(s, [Message(ReadMessage(r.id, Success)), Message(PopReply), Reply(Ready(ready))], s1, [Reply(Report)], s2);
    assert s2.requests == s.requests[t := r.(runs := r.runs + 1,
             tale := r.tale.(answer := Was(Success), ready := Was(ready), told := Was(ready)))];
  }

  /** A read of its buffers has been started for the reply in hand. */
  predicate UnderWay(s: State, t: Token) {
    s.loop == Starting(t) && t < |s.requests| && (s.dtor.Alive? || s.dtor.Stopping?)
  }

  function Began(r: Request, read: Transfer): Request { r.(read := read, tale := r.tale.(began := Was(Success))) }

  function AfterStart(s: State, t: Token, read: Transfer): State
    requires t < |s.requests|
  {
    Set(s, t, Began(s.requests[t], read)).(loop := AwaitRead(t))
  }

  lemma ReadStarts(s: State, t: Token)
    requires UnderWay(s, t)
    ensures Enabled(s, Reply(Start(Success))) && Apply(SHIPPED, s, Reply(Start(Success))) == AfterStart(s, t, Active)
  {
  }

  lemma ReadFinishes(s: State, t: Token, status: Status)
    requires UnderWay(s, t)
    ensures Goes(s, [Reply(Start(Success)), Outside(ReadDone(t, status))], AfterStart(s, t, Ended(status)))
  {
    hide Goes;
    var s1, s2 := AfterStart(s, t, Active), AfterStart(s, t, Ended(status));
    ReadStarts(s, t);
    assert DoOutside(s1, ReadDone(t, status)).requests == s2.requests;
    Two(s, Reply(Start(Success)), s1, Outside(ReadDone(t, status)), s2);
  }

  lemma ReadIsPassedOn(s: State, t: Token, status: Status)
    requires s.loop == AwaitRead(t) && t < |s.requests| && s.requests[t].read == Ended(status) && status != Timeout
    ensures var last, loop := if status == Success then Call else Report, if status == Success then Top else Exited;
      Goes(s, [Reply(ReadEnds), Reply(last)],
           Set(s, t, RunCallback(s.requests[t], status)).(loop := loop, broken := s.broken || status != Success))
  {
    hide Goes;
    var last := if status == Success then Call else Report;
    var s1 := s.(loop := AfterRead(t, status));
    var s2 := Apply(SHIPPED, s1, Reply(last));
    assert DoReply(s, ReadEnds).requests == s1.requests;
    Two(s, Reply(ReadEnds), s1, Reply(last), s2);
  }

  /** The callback runs after the read, and is told how it ended: the loop goes on after a success and ends after an
      error. */
  lemma ReadIsReported(s: State, t: Token, status: Status)
    requires UnderWay(s, t) && status != Timeout
    ensures var r := Began(s.requests[t], Ended(status));
      var last, loop := if status == Success then Call else Report, if status == Success then Top else Exited;
      Goes(s, [Reply(Start(Success)), Outside(ReadDone(t, status))] + [Reply(ReadEnds), Reply(last)],
           Set(s, t, RunCallback(r, status)).(loop := loop, broken := s.broken || status != Success))
  {
    hide Goes;
    var r := Began(s.requests[t], Ended(status));
    var last, loop := if status == Success then Call else Report, if status == Success then Top else Exited;
    var s2 := AfterStart(s, t, Ended(status));
    ReadFinishes(s, t, status);
    ReadIsPassedOn(s2, t, status);
    var s4 := Set(s2, t, RunCallback(r, status)).(loop := loop, broken := s.broken || status != Success);
    Concat(s, [Reply(Start(Success)), Outside(ReadDone(t, status))], s2, [Reply(ReadEnds), Reply(last)], s4);
    assert s4.requests == s.requests[t := RunCallback(r, status)];
  }

  /** A started read that does not end in time leaves its reply parked, and its callback does not run. */
  lemma StuckReadIsParked(s: State, t: Token)
    requires UnderWay(s, t)
    ensures var r := Began(s.requests[t], Active);
      Goes(s, [Reply(Start(Success)), Reply(ReadTimesOut), Reply(Park)],
           Set(s, t, r.(stuck := true, parked := r.parked + 1)).(loop := Exited, broken := true))
  {
    hide Goes;
    var r, s1 := Began(s.requests[t], Active), AfterStart(s, t, Active);
    var s2 := Set(s, t, r.(stuck := true)).(loop := Parking(t));
    var s3 := Set(s, t, r.(stuck := true, parked := r.parked + 1)).(loop := Exited, broken := true);
    ReadStarts(s, t);
    TimesOut(s1, t);
    assert s1.requests[t := r.(stuck := true)] == s2.requests;
    Parks(s2, t);
    assert s2.requests[t := r.(stuck := true, parked := r.parked + 1)] == s3.requests;
    Three(s, Reply(Start(Success)), s1, Reply(ReadTimesOut), s2, Reply(Park), s3);
  }

  lemma TimesOut(s: State, t: Token)
    requires s.loop == AwaitRead(t) && t < |s.requests| && !s.requests[t].read.Ended?
    ensures Enabled(s, Reply(ReadTimesOut))
    ensures Apply(SHIPPED, s, Reply(ReadTimesOut)) == Set(s, t, s.requests[t].(stuck := true)).(loop := Parking(t))
  {
  }

  lemma Parks(s: State, t: Token)
    requires s.loop == Parking(t) && t < |s.requests|
    ensures Enabled(s, Reply(Park))
    ensures Apply(SHIPPED, s, Reply(Park)) ==
            Set(s, t, s.requests[t].(parked := s.requests[t].parked + 1)).(loop := Exited, broken := true)
  {
  }

  // ---------------------------------------------------------------- the end

  /** The drain: each of these callbacks is told that the connection closed. */
  lemma {:induction false} RestIsDrained(s: State, rest: set<Token>) returns (schedule: seq<Step>, s': State)
    requires s.loop == Draining(rest) && forall t | t in rest :: t < |s.requests|
    ensures Goes(s, schedule, s') && s' == s.(requests := s'.requests, loop := Finished, running := false)
    ensures |s'.requests| == |s.requests| && forall t: Token | t < |s.requests| ::
              s'.requests[t] == if t in rest then RunCallback(s.requests[t], Closed) else s.requests[t]
    decreases rest
  {
    if rest == {} {
      s' := s.(loop := Finished, running := false);
      Stay(s');
      First(s, Drain(Finish), s', [], s');
      schedule := [Drain(Finish)] + [];
    } else {
      var t :| t in rest;
      var next := DoDrain(SHIPPED, s, DrainOne(t));
      var later;
      later, s' := RestIsDrained(next, rest - {t});
      First(s, Drain(DrainOne(t)), next, later, s');
      schedule := [Drain(DrainOne(t))] + later;
    }
  }

  /** Once the loop has ended, the drain finishes: every pending request has its callback told that the connection
      closed, and the finished flag is set. */
  lemma DrainFinishes(s: State) returns (schedule: seq<Step>, s': State)
    requires Shape(s) && s.loop.Exited?
    ensures Goes(s, schedule, s')
    ensures s' == s.(requests := s'.requests, replies := map[], loop := Finished, running := false)
    ensures |s'.requests| == |s.requests| && forall t: Token | t < |s.requests| ::
              s'.requests[t] == if Pending(s, t) then RunCallback(s.requests[t], Closed) else s.requests[t]
  {
    PendingAreTheValues(s);
    var s1 := s.(loop := Stopped, running := false);
    var s2 := s1.(loop := Draining(s.replies.Values), replies := map[]);
    Two(s, Drain(Stop), s1, Drain(PopAll), s2);
    schedule, s' := RestIsDrained(s2, s.replies.Values);
    Concat(s, [Drain(Stop), Drain(PopAll)], s2, schedule, s');
    schedule := [Drain(Stop), Drain(PopAll)] + schedule;
  }

  /** What is left of a request once its transfers have ended. */
  function Settled(r: Request): Request {
    r.(read := if r.read.Active? then Ended(Closed) else r.read, writing := false)
  }

  lemma ReadSettles(s: State, t: Token) returns (schedule: seq<Step>, s': State)
    requires t < |s.requests|
    ensures Goes(s, schedule, s')
    ensures var r := s.requests[t]; s' == Set(s, t, r.(read := if r.read.Active? then Ended(Closed) else r.read))
  {
    Stay(s);
    schedule, s' := [], s;
    if s.requests[t].read.Active? {
      s' := Set(s, t, s.requests[t].(read := Ended(Closed)));
      Stay(s');
      First(s, Outside(ReadDone(t, Closed)), s', [], s');
      schedule := [Outside(ReadDone(t, Closed))] + [];
    }
  }

  lemma WriteSettles(s: State, t: Token) returns (schedule: seq<Step>, s': State)
    requires t < |s.requests|
    ensures Goes(s, schedule, s') && s' == Set(s, t, s.requests[t].(writing := false))
  {
    Stay(s);
    schedule, s' := [], s;
    if s.requests[t].writing {
      s' := Set(s, t, s.requests[t].(writing := false));
      Stay(s');
      First(s, Outside(WriteDone(t)), s', [], s');
      schedule := [Outside(WriteDone(t))] + [];
    }
  }

  /** The transfer engine can always end the transfers of the first `n` requests. */
  lemma {:induction false} TransfersEnd(s: State, n: nat) returns (schedule: seq<Step>, s': State)
    requires n <= |s.requests|
    ensures Goes(s, schedule, s') && s' == s.(requests := s'.requests) && |s'.requests| == |s.requests|
    ensures forall t: Token | t < |s.requests| ::
              s'.requests[t] == if t < n then Settled(s.requests[t]) else s.requests[t]
  {
    hide Goes;
    if n == 0 {
      Stay(s);
      schedule, s' := [], s;
    } else {
      var before, s0 := TransfersEnd(s, n - 1);
      var reading, s1 := ReadSettles(s0, n - 1);
      var writing, s2 := WriteSettles(s1, n - 1);
      Concat(s, before, s0, reading, s1);
      Concat(s, before + reading, s1, writing, s2);
      schedule, s' := before + reading + writing, s2;
    }
  }

  /** Once the loop is over, the destructor always comes to its end: the transfers end, and no reply stays parked. */
  lemma DestructorFinishes(s: State) returns (schedule: seq<Step>, s': State)
    requires s.dtor.Alive? && s.loop.Finished?
    ensures Goes(s, schedule, s')
    ensures s'.dtor.Destroyed? && !s'.running && |s'.requests| == |s.requests|
    ensures forall t: Token | t < |s.requests| ::
              var r := Settled(s.requests[t]);
              s'.requests[t] == r.(parked := 0, discarded := r.discarded || r.parked > 0)
  {
    hide Goes;
    var s1 := s.(running := false, dtor := Stopping);
    var s2 := s1.(dtor := Closing);
    Two(s, Outside(ClearRunning), s1, Outside(BeginClose), s2);
    var ending, s3 := TransfersEnd(s2, |s.requests|);
    var s4, s5 := s3.(dtor := ConnectionClosed), s3.(dtor := Joined);
    s' := DoOutside(s5, DropParked);
    Three(s3, Outside(EndClose), s4, Outside(Join), s5, Outside(DropParked), s');
    Concat(s, [Outside(ClearRunning), Outside(BeginClose)], s2, ending, s3);
    schedule := [Outside(ClearRunning), Outside(BeginClose)] + ending;
    Concat(s, schedule, s3, [Outside(EndClose), Outside(Join), Outside(DropParked)], s');
    schedule := schedule + [Outside(EndClose), Outside(Join), Outside(DropParked)];
  }

  /** A waiting caller takes its reply exactly when the callback has run, and times out only when it has not. */
  lemma WaitEnds(s: State, t: Token, step: LeaveStep)
    requires Inside(s, t, Waiting) && step.t == t
    ensures CanLeave(s, step) <==> step == if s.requests[t].runs > 0 then TakeReply(t) else WaitTimesOut(t)
    ensures s.requests[t].runs > 0 ==>
              Goes(s, [Leave(TakeReply(t))], Set(s, t, s.requests[t].(pc := Returned(Replied))))
  {
    if s.requests[t].runs > 0 {
      var s' := Set(s, t, s.requests[t].(pc := Returned(Replied)));
      Stay(s');
      First(s, Leave(TakeReply(t)), s', [], s');
      assert [Leave(TakeReply(t))] + [] == [Leave(TakeReply(t))];
    }
  }

  /** The loop that waits for a read sees its end, and times out only on a read that has not ended. */
  lemma EndedReadIsSeen(s: State, t: Token, step: ReplyStep)
    requires s.loop == AwaitRead(t) && t < |s.requests|
    ensures CanReply(s, step) <==> step == if s.requests[t].read.Ended? then ReadEnds else ReadTimesOut
  {
  }

  /** The loop notices that the client stopped, and reads on while it runs. */
  lemma LoopTestsRunning(s: State)
    requires s.loop.Top?
    ensures Goes(s, [Message(TestRunning)], s.(loop := if s.running then Reading else Exited))
  {
    var s' := s.(loop := if s.running then Reading else Exited);
    Stay(s');
    First(s, Message(TestRunning), s', [], s');
    assert [Message(TestRunning)] + [] == [Message(TestRunning)];
  }
}
