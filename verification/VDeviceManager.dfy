/**
 The device manager of the server: clients share one device per group, a client of the unique group has it
 alone. create_vdevice may wait for the device; the wait releases the mutex, so the steps of several calls,
 of mark_vdevice_for_close and of remove_vdevice interleave.
 */
module VDeviceManager {
  type Client = nat

  const UNIQUE: string := "UNIQUE"  // HAILO_UNIQUE_VDEVICE_GROUP_ID

  datatype Call = Call(client: Client, group: string)

  datatype Event = Granted(client: Client) | Marked(client: Client) | Removed(client: Client)

  datatype State = State(
    group: string,                // m_active_vdevice_group_id
    active: set<Client>,          // m_active_clients_with_vdevice
    closing: set<Client>,         // m_pending_close_clients_with_vdevice
    queue: seq<Client>,           // m_requesting_clients_queue
    waiters: seq<Call>,           // calls inside wait_for_vdevice_ready, by arrival
    created: map<Client, string>, // history: the group of each client's last device
    misused: bool,                // history: front or pop met an empty queue
    events: seq<Event>)           // history: devices given, calls of mark_vdevice_for_close and of remove_vdevice

  const INITIAL := State(UNIQUE, {}, {}, [], [], map[], false, [])

  /** The outcome of create_shared is part of the step. A step by the waiter at position `i` runs with the mutex. */
  datatype Step =
    | Create(call: Call, deviceOk: bool)  // create_vdevice up to its first wait, or all of it
    | Resume(i: nat, deviceOk: bool)      // the waiter finds the device ready
    | TimeOut(i: nat)                     // the waiter gives up
    | CheckAgain(i: nat)                  // the waiter wakes up, is not ready and goes on waiting
    | MarkForClose(client: Client)
    | Remove(client: Client)

  /** check_ready. It takes the front of the queue, which each step that evaluates it needs: a waiter finds its own
      entry there, and Pop or CheckAgain records an empty queue. */
  predicate ReadyFor(s: State, client: Client) {
    s.queue != [] && s.queue[0] == client && s.active == {} && s.closing == {}
  }

  predicate MustBeAlone(s: State, call: Call) { call.group == UNIQUE || s.group != call.group }

  /** create_vdevice_internal. */
  function Internal(s: State, call: Call, deviceOk: bool): State {
    if deviceOk
    then s.(group := call.group, active := s.active + {call.client}, created := s.created[call.client := call.group],
            events := s.events + [Granted(call.client)])
    else s
  }

  function Pop(s: State): State {
    if s.queue == [] then s.(misused := true) else s.(queue := s.queue[1..])
  }

  function Without(calls: seq<Call>, i: nat): seq<Call>
    requires i < |calls|
  {
    calls[..i] + calls[i + 1..]
  }

  predicate Enabled(s: State, step: Step) {
    match step
    case Resume(i, _) => i < |s.waiters| && ReadyFor(s, s.waiters[i].client)
    case TimeOut(i) => i < |s.waiters| && !ReadyFor(s, s.waiters[i].client)
    case CheckAgain(i) => i < |s.waiters| && !ReadyFor(s, s.waiters[i].client)
    case _ => true
  }

  function Apply(s: State, step: Step): State
    requires Enabled(s, step)
  {
    match step
    case Create(call, deviceOk) =>
      if MustBeAlone(s, call) then
        if s.active != {} then s  // HAILO_DEVICE_IN_USE
        else
          var queued := s.(queue := s.queue + [call.client]);
          if ReadyFor(queued, call.client) then Internal(Pop(queued), call, deviceOk)
          else queued.(waiters := s.waiters + [call])
      else Internal(s, call, deviceOk)
    case Resume(i, deviceOk) =>
      Internal(Pop(s).(waiters := Without(s.waiters, i)), s.waiters[i], deviceOk)
    case TimeOut(i) => Pop(s).(waiters := Without(s.waiters, i))
    case CheckAgain(_) => if s.queue == [] then s.(misused := true) else s
    case MarkForClose(client) =>
      var called := s.(events := s.events + [Marked(client)]);
      if client in s.active then called.(active := s.active - {client}, closing := s.closing + {client}) else called
    case Remove(client) =>
      var called := s.(events := s.events + [Removed(client)]);
      if client in s.active then called.(active := s.active - {client})
      else called.(closing := s.closing - {client})
  }

  ghost predicate Feasible(s: State, schedule: seq<Step>)
    decreases |schedule|
  {
    schedule == [] || (Enabled(s, schedule[0]) && Feasible(Apply(s, schedule[0]), schedule[1..]))
  }

  ghost function Run(s: State, schedule: seq<Step>): State
    requires Feasible(s, schedule)
    decreases |schedule|
  {
    if schedule == [] then s else Run(Apply(s, schedule[0]), schedule[1..])
  }

  // ---------------------------------------------------------------- groups never mix

  predicate HasDevice(s: State, c: Client) { c in s.active || c in s.closing }

  ghost predicate Inv(s: State) {
    && (forall c | HasDevice(s, c) :: c in s.created && s.created[c] == s.group)
    && (s.group == UNIQUE ==> forall c, d | HasDevice(s, c) && HasDevice(s, d) :: c == d)
    && |s.queue| == |s.waiters|
    && !s.misused
  }

  lemma StepKeepsInv(s: State, step: Step)
    requires Inv(s) && Enabled(s, step)
    ensures Inv(Apply(s, step))
  {
    var s' := Apply(s, step);
    forall c | HasDevice(s', c) ensures c in s'.created && s'.created[c] == s'.group {
      assert HasDevice(s, c) ==> s.group == s'.group;
    }
    if s'.group == UNIQUE {
      forall c, d | HasDevice(s', c) && HasDevice(s', d) ensures c == d {
        assert (HasDevice(s, c) && HasDevice(s, d)) || (s.active == {} && s.closing == {});
      }
    }
  }

  lemma {:induction false} RunKeepsInv(s: State, schedule: seq<Step>)
    requires Inv(s) && Feasible(s, schedule)
    ensures Inv(Run(s, schedule))
    decreases |schedule|
  {
    if schedule != [] {
      StepKeepsInv(s, schedule[0]);
      RunKeepsInv(Apply(s, schedule[0]), schedule[1..]);
    }
  }

  /** Whatever the interleaving: two clients that have a device at the same time, closing or not, belong to the
      same group, which is the active one; in the unique group they are the same client; and each entry of the
      request queue stands for one waiting call, so front and pop never meet an empty queue. */
  lemma GroupsNeverMix(schedule: seq<Step>, c: Client, d: Client)
    requires Feasible(INITIAL, schedule)
    requires var s := Run(INITIAL, schedule); HasDevice(s, c) && HasDevice(s, d)
    ensures var s := Run(INITIAL, schedule);
      && c in s.created && s.created[c] == s.group
      && d in s.created && s.created[d] == s.group
      && (s.group == UNIQUE ==> c == d)
  {
    RunKeepsInv(INITIAL, schedule);
  }

  lemma OneQueueEntryPerWaiter(schedule: seq<Step>)
    requires Feasible(INITIAL, schedule)
    ensures var s := Run(INITIAL, schedule); |s.queue| == |s.waiters| && !s.misused
  {
    RunKeepsInv(INITIAL, schedule);
  }

  // ---------------------------------------------------------------- devices come and go

  /** The last grant of `c` has no later remove. */
  function Holds(events: seq<Event>, c: Client): bool {
    if events == [] then false
    else
      match events[|events| - 1]
      case Granted(d) => d == c || Holds(events[..|events| - 1], c)
      case Removed(d) => d != c && Holds(events[..|events| - 1], c)
      case Marked(_) => Holds(events[..|events| - 1], c)
  }

  /** Nor a later remove or grant, but a mark while it was held. */
  function Closes(events: seq<Event>, c: Client): bool {
    if events == [] then false
    else
      var rest := events[..|events| - 1];
      match events[|events| - 1]
      case Granted(d) => d != c && Closes(rest, c)
      case Removed(d) => d != c && Closes(rest, c)
      case Marked(d) => if d == c then Holds(rest, c) else Closes(rest, c)
  }

  /** The sets say what the events say. */
  ghost predicate Faithful(s: State, c: Client) {
    (HasDevice(s, c) <==> Holds(s.events, c)) && (c in s.closing <==> Closes(s.events, c))
    && !(c in s.active && c in s.closing)
  }

  predicate Grants(s: State, step: Step, c: Client)
    requires Enabled(s, step)
  {
    Apply(s, step).events == s.events + [Granted(c)]
  }

  /** One more event. */
  lemma NextEvent(events: seq<Event>, e: Event, c: Client)
    ensures Holds(events + [e], c) == if e.client == c && !e.Marked? then e.Granted? else Holds(events, c)
    ensures Closes(events + [e], c) == if e.client == c then e.Marked? && Holds(events, c) else Closes(events, c)
  {
    assert (events + [e])[..|events|] == events && (events + [e])[|events|] == e;
  }

  /** The sets change with the events only. */
  lemma StepHappens(s: State, step: Step)
    requires Enabled(s, step)
    ensures var s' := Apply(s, step);
      || (s'.events == s.events && s'.active == s.active && s'.closing == s.closing)
      || (exists d :: s'.events == s.events + [Granted(d)] && s'.active == s.active + {d} && s'.closing == s.closing)
      || (step.MarkForClose? && s'.events == s.events + [Marked(step.client)]
          && s'.active == s.active - {step.client}
          && s'.closing == s.closing + if step.client in s.active then {step.client} else {})
      || (step.Remove? && s'.events == s.events + [Removed(step.client)]
          && s'.active == s.active - {step.client}
          && s'.closing == s.closing - if step.client in s.active then {} else {step.client})
  {
  }

  /** Every step keeps the sets faithful for a client, unless it gives a device to that client while the client is
      still closing another, and then they are not. */
  lemma StepKeepsFaithful(s: State, step: Step, c: Client)
    requires Enabled(s, step) && Faithful(s, c)
    ensures Faithful(Apply(s, step), c) <==> !(Grants(s, step, c) && c in s.closing)
  {
    hide Apply, Holds, Closes;
    StepHappens(s, step);
    var s' := Apply(s, step);
    if s'.events != s.events {
      var e := s'.events[|s.events|];
      assert s'.events == s.events + [e];
      NextEvent(s.events, e, c);
    }
  }

  /** Nobody is given a device while still closing another. */
  ghost predicate NeverAgain(s: State, schedule: seq<Step>, c: Client)
    requires Feasible(s, schedule)
    decreases |schedule|
  {
    schedule == []
    || (!(Grants(s, schedule[0], c) && c in s.closing) && NeverAgain(Apply(s, schedule[0]), schedule[1..], c))
  }

  lemma {:induction false} RunKeepsFaithful(s: State, schedule: seq<Step>, c: Client)
    requires Faithful(s, c) && Feasible(s, schedule) && NeverAgain(s, schedule, c)
    ensures Faithful(Run(s, schedule), c)
    decreases |schedule|
  {
    if schedule != [] {
      StepKeepsFaithful(s, schedule[0], c);
      RunKeepsFaithful(Apply(s, schedule[0]), schedule[1..], c);
    }
  }

  /** In every run in which a client asks again only after its close is done: it has a device if and only if its last
      grant has no later remove, and is closing if and only if it was marked since. */
  lemma DevicesComeAndGo(schedule: seq<Step>, c: Client)
    requires Feasible(INITIAL, schedule) && NeverAgain(INITIAL, schedule, c)
    ensures var s := Run(INITIAL, schedule);
      && (HasDevice(s, c) <==> Holds(s.events, c)) && (c in s.closing <==> Closes(s.events, c))
      && !(c in s.active && c in s.closing)
  {
    RunKeepsFaithful(INITIAL, schedule, c);
  }

  /** A client that asks again too early is in both sets: one remove does not give its device back. */
  lemma AskingAgainNeedsTwoRemoves(c: Client) returns (schedule: seq<Step>)
    ensures Feasible(INITIAL, schedule)
    ensures var s := Run(INITIAL, schedule);
      s.events == [Granted(c), Marked(c), Granted(c), Removed(c)] && HasDevice(s, c) && !Holds(s.events, c)
  {
    var s1 := State("g", {c}, {}, [], [], map[c := "g"], false, [Granted(c)]);
    var s2 := s1.(active := {}, closing := {c}, events := [Granted(c), Marked(c)]);
    var s3 := s2.(active := {c}, events := [Granted(c), Marked(c), Granted(c)]);
    var s4 := s3.(active := {}, events := [Granted(c), Marked(c), Granted(c), Removed(c)]);
    assert {c} - {c} == {};
    var fourth := Prepend(s3, Remove(c), s4, []);
    var third := Prepend(s2, Create(Call(c, "g"), true), s3, fourth);
    var second := Prepend(s1, MarkForClose(c), s2, third);
    schedule := Prepend(INITIAL, Create(Call(c, "g"), true), s1, second);
    assert s4.events[3] == Removed(c);
  }

  /** Removing every holder frees the device, and the client at the front of the queue is ready for it. */
  lemma {:induction false} RemovesFree(s: State) returns (schedule: seq<Step>)
    ensures Feasible(s, schedule)
    ensures var s' := Run(s, schedule);
      && s' == s.(active := {}, closing := {}, events := s'.events)
      && (s.queue != [] ==> ReadyFor(s', s.queue[0]))
    decreases |s.active|, |s.closing|
  {
    if c :| c in s.active {
      var rest := RemovesFree(Apply(s, Remove(c)));
      schedule := Prepend(s, Remove(c), Apply(s, Remove(c)), rest);
    } else if c :| c in s.closing {
      var rest := RemovesFree(Apply(s, Remove(c)));
      schedule := Prepend(s, Remove(c), Apply(s, Remove(c)), rest);
    } else {
      schedule := [];
      assert s.active == {} && s.closing == {};
    }
  }

  /** Then a waiting call of that client gets the device, if it can be created, and its group becomes the active one. */
  lemma FrontGetsDevice(s: State, i: nat)
    requires i < |s.waiters| && ReadyFor(s, s.waiters[i].client)
    ensures Enabled(s, Resume(i, true))
    ensures var s' := Apply(s, Resume(i, true));
      && s'.active == {s.waiters[i].client} && s'.group == s.waiters[i].group
      && Grants(s, Resume(i, true), s.waiters[i].client)
      && s'.queue == s.queue[1..] && |s'.waiters| == |s.waiters| - 1
  {
  }

  /** What a call is told at once. It gets a device if the creation works, and either its group is the active one and
      not the unique one, or nobody has a device and nobody else is at the front of the queue; it is refused while
      somebody of another group is active, and waits otherwise. */
  lemma CreateAnswers(s: State, call: Call, deviceOk: bool)
    ensures var s', step := Apply(s, Create(call, deviceOk)), Create(call, deviceOk);
      var joins := call.group == s.group && call.group != UNIQUE;
      var free := s.active == {} && s.closing == {} && (s.queue == [] || s.queue[0] == call.client);
      && (Grants(s, step, call.client) <==> deviceOk && (joins || free))
      && (Grants(s, step, call.client) ==> HasDevice(s', call.client) && s'.group == call.group)
      && (|s'.waiters| == |s.waiters| + 1 <==> !joins && s.active == {} && !free)
      && (!joins && s.active != {} ==> s' == s)
  {
  }

  // ---------------------------------------------------------------- but the queue is not in order of arrival

  function Clients(calls: seq<Call>): (r: seq<Client>)
    ensures |r| == |calls|
  {
    seq(|calls|, i requires 0 <= i < |calls| => calls[i].client)
  }

  /** The queue names the waiting calls in the order of their arrival. */
  ghost predicate InOrder(s: State) { s.queue == Clients(s.waiters) }

  /** A call that leaves the wait pops the front of the queue, not its own entry. The order of arrival survives
      exactly when every call that came before it is of the same client. */
  lemma LeavingKeepsOrder(s: State, i: nat, step: Step)
    requires InOrder(s) && Enabled(s, step) && (step.TimeOut? || step.Resume?) && i == step.i
    ensures InOrder(Apply(s, step)) <==> forall k | 0 <= k < i :: s.waiters[k].client == s.waiters[i].client
  {
    hide InOrder;
    var q := Clients(s.waiters);
    LeavingShifts(s, i, step);
    assert forall k | 0 <= k < |q| :: q[k] == s.waiters[k].client;
    if q[1..] == q[..i] + q[i + 1..] {
      forall k | 0 <= k < i ensures q[k] == q[k + 1] { assert q[1..][k] == q[..i][k]; }
      AllEqual(q, i);
    }
    if forall k | 0 <= k < i :: q[k] == q[i] { DroppingEqual(q, i); }
  }

  /** Whoever leaves, the front of the queue goes. */
  lemma LeavingShifts(s: State, i: nat, step: Step)
    requires InOrder(s) && Enabled(s, step) && (step.TimeOut? || step.Resume?) && i == step.i
    ensures InOrder(Apply(s, step)) <==>
            var q := Clients(s.waiters); q[1..] == q[..i] + q[i + 1..]
  {
    var s', q := Apply(s, step), Clients(s.waiters);
    assert s'.queue == q[1..] && s'.waiters == Without(s.waiters, i);
    assert Clients(s'.waiters) == q[..i] + q[i + 1..];
  }

  lemma DroppingEqual(q: seq<Client>, i: nat)
    requires i < |q| && forall k | 0 <= k < i :: q[k] == q[i]
    ensures q[1..] == q[..i] + q[i + 1..]
  {
    forall k | 0 <= k < |q| - 1 ensures q[1..][k] == (q[..i] + q[i + 1..])[k] {
    }
  }

  lemma {:induction false} AllEqual(q: seq<Client>, i: nat)
    requires i < |q| && forall k | 0 <= k < i :: q[k] == q[k + 1]
    ensures forall k | 0 <= k <= i :: q[k] == q[i]
  {
    if i > 0 { AllEqual(q, i - 1); }
  }

  /** The call at the end of the queue. */
  function Arrive(s: State, call: Call): State {
    s.(queue := s.queue + [call.client], waiters := s.waiters + [call])
  }

  /** A call that has to be alone and does not fail at once joins the end of both sequences; if it is ready there
      and then, it leaves them again by the step above. No other step touches the order. */
  lemma ArrivalKeepsOrder(s: State, step: Step)
    requires InOrder(s) && Enabled(s, step) && !step.TimeOut? && !step.Resume?
    ensures if step.Create? && MustBeAlone(s, step.call) && s.active == {}
      then var joined := Arrive(s, step.call);
        InOrder(joined) && Apply(s, step) ==
          if ReadyFor(joined, step.call.client) then Apply(joined, Resume(|s.waiters|, step.deviceOk)) else joined
      else InOrder(Apply(s, step))
  {
    if step.Create? && MustBeAlone(s, step.call) && s.active == {} {
      var joined := Arrive(s, step.call);
      assert Clients(joined.waiters) == Clients(s.waiters) + [step.call.client];
      assert Without(joined.waiters, |s.waiters|) == s.waiters;
    }
  }

  /** Two clients wait for a third to close; the second times out and takes the place of the first in the queue:
      from then on the first is not ready, however free the device is. */
  lemma TimeOutStealsThePlace(b: Client, c: Client, d: Client) returns (schedule: seq<Step>)
    requires c != d
    ensures Feasible(INITIAL, schedule)
    ensures var s := Run(INITIAL, schedule);
      s.waiters == [Call(c, "c")] && s.queue == [d] && !ReadyFor(s.(closing := {}), c)
  {
    var s0 := INITIAL;
    var s1 := State("g", {b}, {}, [], [], map[b := "g"], false, [Granted(b)]);
    var s2 := s1.(active := {}, closing := {b}, events := [Granted(b), Marked(b)]);
    var s3 := s2.(queue := [c], waiters := [Call(c, "c")]);
    var s4 := s2.(queue := [c, d], waiters := [Call(c, "c"), Call(d, "d")]);
    var s5 := s2.(queue := [d], waiters := [Call(c, "c")]);
    var done := Prepend(s4, TimeOut(1), s5, []);
    var fourth := Prepend(s3, Create(Call(d, "d"), true), s4, done);
    var third := Prepend(s2, Create(Call(c, "c"), true), s3, fourth);
    var second := Prepend(s1, MarkForClose(b), s2, third);
    schedule := Prepend(s0, Create(Call(b, "g"), true), s1, second);
  }

  lemma Prepend(s: State, step: Step, next: State, rest: seq<Step>) returns (schedule: seq<Step>)
    requires Enabled(s, step) && Apply(s, step) == next && Feasible(next, rest)
    ensures Feasible(s, schedule) && Run(s, schedule) == Run(next, rest)
  {
    schedule := [step] + rest;
    assert schedule[0] == step && schedule[1..] == rest;
  }
}
