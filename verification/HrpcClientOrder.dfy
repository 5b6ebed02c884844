/**
 Both orders of the hRPC client are needed: without the second test of m_is_running, or with the
 drain before m_is_running is cleared, a run exists in which an accepted request loses its callback.
 */
module HrpcClientOrder {
  import opened HrpcClient

  ghost predicate Leads(p: Protocol, schedule: seq<Step>, s: State) {
    Feasible(p, INITIAL, schedule) && Run(p, INITIAL, schedule) == s
  }

  lemma {:induction false} Append(p: Protocol, s: State, schedule: seq<Step>, step: Step)
    requires Feasible(p, s, schedule) && Enabled(Run(p, s, schedule), step)
    ensures Feasible(p, s, schedule + [step])
    ensures Run(p, s, schedule + [step]) == Apply(p, Run(p, s, schedule), step)
    decreases |schedule|
  {
    if schedule == [] {
      assert [step][1..] == [];
    } else {
      Append(p, Apply(p, s, schedule[0]), schedule[1..], step);
      assert (schedule + [step])[1..] == schedule[1..] + [step];
    }
  }

  lemma Then(p: Protocol, schedule: seq<Step>, s: State, step: Step) returns (longer: seq<Step>, s': State)
    requires Leads(p, schedule, s) && Enabled(s, step)
    ensures Leads(p, longer, s') && s' == Apply(p, s, step)
  {
    Append(p, INITIAL, schedule, step);
    longer, s' := schedule + [step], Apply(p, s, step);
  }

  lemma Begin(p: Protocol) returns (schedule: seq<Step>, s: State)
    ensures Leads(p, schedule, s) && s == INITIAL
  {
    schedule, s := [], INITIAL;
  }

  /** Everybody is done, the request was accepted, no read timed out, and the callback never ran. */
  predicate CallbackLost(s: State) {
    && s.loop.Finished? && |s.requests| == 1
    && s.requests[0].pc == Returned(Accepted) && !s.requests[0].stuck && s.requests[0].runs == 0
  }

  function Only(running: bool, writer: bool, pc: Caller, replies: map<nat, Token>, loop: Loop): State {
    var queued := pc == Written;
    State(running, 0, writer,
          [Request(0, false, false, pc, NotStarted, queued, 0, false, false, 0, UNTOLD.(queued := queued))],
          replies, loop, Alive, loop != Top)
  }

  lemma FirstNumber(s: State)
    requires s == INITIAL.(admitted := 1)
    ensures CanEnter(s, Number(false, false))
    ensures DoEnter(s, Number(false, false)) == Only(true, true, Numbered, map[], Top)
  {
    assert |s.requests| % ID_SPACE == 0;
    assert DoEnter(s, Number(false, false)).requests == Only(true, true, Numbered, map[], Top).requests;
  }

  /** A request took its id and then the connection was lost. */
  lemma LateRequest(p: Protocol) returns (schedule: seq<Step>)
    ensures Leads(p, schedule, Only(true, true, Numbered, map[], Exited))
  {
    var s;
    schedule, s := Begin(p);
    schedule, s := Then(p, schedule, s, Enter(Admit));
    FirstNumber(s);
    schedule, s := Then(p, schedule, s, Enter(Number(false, false)));
    assert s == Only(true, true, Numbered, map[], Top);
    schedule, s := Then(p, schedule, s, Message(TestRunning));
    schedule, s := Then(p, schedule, s, Message(ReadFails));
  }

  /** Without the second test a request can slip in behind the drain. */
  lemma RecheckIsNeeded() returns (schedule: seq<Step>, s: State)
    ensures Leads(Protocol(false, true), schedule, s) && CallbackLost(s)
  {
    var p := Protocol(false, true);
    schedule := LateRequest(p);
    s := Only(true, true, Numbered, map[], Exited);
    schedule, s := Then(p, schedule, s, Drain(Stop));
    schedule, s := Then(p, schedule, s, Drain(PopAll));
    assert s.loop == Draining({});
    schedule, s := Then(p, schedule, s, Drain(Finish));
    assert s == Only(false, true, Numbered, map[], Finished);
    schedule, s := Then(p, schedule, s, Enter(Register(0)));
    schedule, s := Then(p, schedule, s, Enter(Write(0, true)));
    schedule, s := Then(p, schedule, s, Leave(Recheck(0)));
  }

  /** With the drain first, the second test can come too early. */
  lemma StopBeforeDrainIsNeeded() returns (schedule: seq<Step>, s: State)
    ensures Leads(Protocol(true, false), schedule, s) && CallbackLost(s)
  {
    var p := Protocol(true, false);
    schedule := LateRequest(p);
    s := Only(true, true, Numbered, map[], Exited);
    schedule, s := Then(p, schedule, s, Drain(Stop));
    schedule, s := Then(p, schedule, s, Drain(PopAll));
    assert s.loop == Draining({});
    assert s == Only(true, true, Numbered, map[], Draining({}));
    schedule, s := Then(p, schedule, s, Enter(Register(0)));
    schedule, s := Then(p, schedule, s, Enter(Write(0, true)));
    schedule, s := Then(p, schedule, s, Leave(Recheck(0)));
    schedule, s := Then(p, schedule, s, Drain(Finish));
  }
}
