/**
 The single-producer single-consumer queue: a FIFO between two counting semaphores, and a shutdown event.

 The class is the queue as one thread sees it when the other side is quiet; `clear` loops over `dequeue`.
 The state machine interleaves one producer and one consumer between the wait, the FIFO operation and the
 signal of each call.
 */
module SpscQueue {
  import opened Wrappers

  datatype Status = Success | Timeout | ShutdownSignaled | InvalidArgument

  const SEMAPHORE_RANGE: nat := 0x1_0000_0000  // the initial count is cast to uint32_t

  /** What a wait reports when it returns: shutdown comes first unless it is ignored. */
  function WaitResult(permits: nat, shutdown: bool, ignoreShutdown: bool): Status {
    if shutdown && !ignoreShutdown then ShutdownSignaled else if permits > 0 then Success else Timeout
  }

  class Queue<T> {
    const capacity: nat
    var inner: seq<T>    // m_inner
    var items: nat       // m_items_enqueued_sema
    var slots: nat       // m_items_dequeued_sema
    var shutdown: bool

    /** The semaphores agree with the FIFO. */
    ghost predicate Valid()
      reads this
    {
      items == |inner| && |inner| + slots == capacity % SEMAPHORE_RANGE
    }

    constructor (maxSize: nat)
      requires maxSize > 0
      ensures Valid() && capacity == maxSize && inner == [] && !shutdown
    {
      capacity := maxSize;
      inner, items, slots, shutdown := [], 0, maxSize % SEMAPHORE_RANGE, false;
    }

    method Enqueue(x: T, ignoreShutdown: bool) returns (status: Status)
      requires Valid()
      modifies this
      ensures Valid() && shutdown == old(shutdown)
      ensures status == WaitResult(old(slots), old(shutdown), ignoreShutdown)
      ensures inner == if status == Success then old(inner) + [x] else old(inner)
    {
      status := WaitResult(slots, shutdown, ignoreShutdown);
      if status == Success {
        slots := slots - 1;
        assert |inner| < capacity;  // try_enqueue cannot fail
        inner := inner + [x];
        items := items + 1;
      }
    }

    method Dequeue(ignoreShutdown: bool) returns (status: Status, x: Option<T>)
      requires Valid()
      modifies this
      ensures Valid() && shutdown == old(shutdown)
      ensures status == WaitResult(old(items), old(shutdown), ignoreShutdown)
      ensures status == Success ==> x.Some? && old(inner) == [x.value] + inner
      ensures status != Success ==> x.None? && inner == old(inner)
    {
      status, x := WaitResult(items, shutdown, ignoreShutdown), None;
      if status == Success {
        items := items - 1;
        assert inner != [];  // try_dequeue cannot fail
        x, inner := Some(inner[0]), inner[1..];
        slots := slots + 1;
      }
    }

    /** The queue ends empty, with every permit back on the producer's side, even after a shutdown. */
    method Clear() returns (status: Status)
      requires Valid()
      modifies this
      ensures Valid() && shutdown == old(shutdown)
      ensures status == Success && inner == [] && items == 0 && slots == capacity % SEMAPHORE_RANGE
    {
      status := Success;
      while status == Success
        invariant Valid() && shutdown == old(shutdown)
        invariant status == Success || (status == Timeout && inner == [])
        decreases |inner|, if status == Success then 1 else 0
      {
        var discarded;
        status, discarded := Dequeue(true);
      }
      status := Success;
    }
  }

  method Create<T>(maxSize: nat) returns (status: Status, queue: Queue?<T>)
    ensures maxSize == 0 <==> status == InvalidArgument
    ensures status == InvalidArgument <==> queue == null
    ensures queue != null ==>
              fresh(queue) && queue.Valid() && queue.capacity == maxSize && queue.inner == [] && !queue.shutdown
  {
    if maxSize == 0 {
      return InvalidArgument, null;
    }
    queue := new Queue<T>(maxSize);
    status := Success;
  }

  // ---------------------------------------------------------------- one producer, one consumer

  datatype Producer<T> = Outside | Granted(x: T) | Pushed
  datatype Consumer<T> = Away | Entitled | Popped(x: T)

  datatype State<T> = State(
    capacity: nat, inner: seq<T>, items: nat, slots: nat, shutdown: bool,
    producer: Producer<T>, consumer: Consumer<T>,
    put: seq<T>, taken: seq<T>,  // history: accepted and delivered, in order
    asserted: bool)              // history: a try_enqueue or try_dequeue failed

  function Created<T>(capacity: nat): State<T> {
    State(capacity, [], 0, capacity % SEMAPHORE_RANGE, false, Outside, Away, [], [], false)
  }

  datatype Step<T> =
    | WaitForSlot(x: T, ignoreShutdown: bool) | TryEnqueue | SignalItem
    | WaitForItem(ignoreShutdown: bool) | TryDequeue | SignalSlot
    | Shutdown

  predicate Enabled<T>(s: State<T>, step: Step<T>) {
    match step
    case WaitForSlot(_, _) => s.producer.Outside?
    case TryEnqueue => s.producer.Granted?
    case SignalItem => s.producer.Pushed?
    case WaitForItem(_) => s.consumer.Away?
    case TryDequeue => s.consumer.Entitled?
    case SignalSlot => s.consumer.Popped?
    case Shutdown => true
  }

  function Apply<T>(s: State<T>, step: Step<T>): State<T>
    requires Enabled(s, step)
  {
    match step
    case WaitForSlot(x, ignoreShutdown) =>
      if WaitResult(s.slots, s.shutdown, ignoreShutdown) == Success
      then s.(slots := s.slots - 1, producer := Granted(x)) else s
    case TryEnqueue =>
      if |s.inner| < s.capacity
      then s.(inner := s.inner + [s.producer.x], put := s.put + [s.producer.x], producer := Pushed)
      else s.(asserted := true)
    case SignalItem => s.(items := s.items + 1, producer := Outside)
    case WaitForItem(ignoreShutdown) =>
      if WaitResult(s.items, s.shutdown, ignoreShutdown) == Success
      then s.(items := s.items - 1, consumer := Entitled) else s
    case TryDequeue =>
      if s.inner != []
      then s.(inner := s.inner[1..], taken := s.taken + [s.inner[0]], consumer := Popped(s.inner[0]))
      else s.(asserted := true)
    case SignalSlot => s.(slots := s.slots + 1, consumer := Away)
    case Shutdown => s.(shutdown := true)
  }

  ghost predicate Feasible<T>(s: State<T>, schedule: seq<Step<T>>)
    decreases |schedule|
  {
    schedule == [] || (Enabled(s, schedule[0]) && Feasible(Apply(s, schedule[0]), schedule[1..]))
  }

  ghost function Run<T>(s: State<T>, schedule: seq<Step<T>>): State<T>
    requires Feasible(s, schedule)
    decreases |schedule|
  {
    if schedule == [] then s else Run(Apply(s, schedule[0]), schedule[1..])
  }

  /** Each semaphore, together with the permit a running call holds, mirrors the FIFO. */
  ghost predicate Balanced<T>(s: State<T>) {
    && |s.inner| + s.slots + One(s.producer.Granted?) + One(s.consumer.Popped?) == s.capacity % SEMAPHORE_RANGE
    && s.items + One(s.consumer.Entitled?) + One(s.producer.Pushed?) == |s.inner|
    && s.taken + s.inner == s.put
    && !s.asserted
  }

  lemma StepKeepsBalance<T>(s: State<T>, step: Step<T>)
    requires Balanced(s) && Enabled(s, step)
    ensures Balanced(Apply(s, step)) && Apply(s, step).capacity == s.capacity
  {
    if step.TryEnqueue? {
      assert (s.taken + s.inner) + [s.producer.x] == s.taken + (s.inner + [s.producer.x]);
    }
  }

  lemma {:induction false} RunKeepsBalance<T>(s: State<T>, schedule: seq<Step<T>>)
    requires Balanced(s) && Feasible(s, schedule)
    ensures Balanced(Run(s, schedule)) && Run(s, schedule).capacity == s.capacity
    decreases |schedule|
  {
    if schedule != [] {
      StepKeepsBalance(s, schedule[0]);
      RunKeepsBalance(Apply(s, schedule[0]), schedule[1..]);
    }
  }

  /** In every interleaving: no FIFO operation fails after its wait succeeded, the length stays within the
      capacity, what was taken followed by what is left is what was put, and whenever both sides are out
      the semaphores are exactly the two halves of the queue, so that the class is valid again. */
  lemma SemaphoresTrackQueue<T>(capacity: nat, schedule: seq<Step<T>>)
    requires capacity > 0 && Feasible(Created(capacity), schedule)
    ensures var s := Run(Created(capacity), schedule);
      && !s.asserted
      && |s.inner| <= capacity
      && s.taken + s.inner == s.put
      && (s.producer.Outside? && s.consumer.Away? ==>
            s.items == |s.inner| && |s.inner| + s.slots == capacity % SEMAPHORE_RANGE)
  {
    assert Balanced<T>(Created(capacity));
    RunKeepsBalance<T>(Created(capacity), schedule);
  }

  lemma {:induction false} Append<T>(s: State<T>, schedule: seq<Step<T>>, step: Step<T>)
    requires Feasible(s, schedule) && Enabled(Run(s, schedule), step)
    ensures Feasible(s, schedule + [step]) && Run(s, schedule + [step]) == Apply(Run(s, schedule), step)
    decreases |schedule|
  {
    if schedule == [] {
      assert [step][1..] == [];
    } else {
      Append(Apply(s, schedule[0]), schedule[1..], step);
      assert (schedule + [step])[1..] == schedule[1..] + [step];
    }
  }

  function Filled<T>(capacity: nat, x: T, n: nat): State<T>
    requires n <= capacity % SEMAPHORE_RANGE
  {
    var s := seq(n, _ => x);
    State(capacity, s, n, capacity % SEMAPHORE_RANGE - n, false, Outside, Away, s, [], false)
  }

  lemma OneMoreItem<T>(capacity: nat, x: T, n: nat)
    requires n < capacity % SEMAPHORE_RANGE
    ensures var s := Filled(capacity, x, n);
      Apply(Apply(Apply(s, WaitForSlot(x, false)), TryEnqueue), SignalItem) == Filled(capacity, x, n + 1)
  {
    assert seq(n, _ => x) + [x] == seq(n + 1, _ => x);
  }

  /** As many items fit as there are initial permits. */
  lemma {:induction false} Fill<T>(capacity: nat, x: T, n: nat) returns (schedule: seq<Step<T>>)
    requires n <= capacity % SEMAPHORE_RANGE
    ensures Feasible(Created(capacity), schedule) && Run(Created(capacity), schedule) == Filled(capacity, x, n)
  {
    if n == 0 {
      schedule := [];
    } else {
      schedule := Fill(capacity, x, n - 1);
      OneMoreItem(capacity, x, n - 1);
      Append(Created(capacity), schedule, WaitForSlot(x, false));
      schedule := schedule + [WaitForSlot(x, false)];
      Append(Created(capacity), schedule, TryEnqueue);
      schedule := schedule + [TryEnqueue];
      Append(Created(capacity), schedule, SignalItem);
      schedule := schedule + [SignalItem];
    }
  }

  ghost predicate Reaches<T>(capacity: nat, schedule: seq<Step<T>>, n: nat) {
    Feasible(Created(capacity), schedule) && |Run(Created(capacity), schedule).inner| == n
  }

  /** All of the capacity can be used exactly when it fits the 32-bit count of a semaphore. */
  lemma WholeCapacityIsUsable<T(!new)>(capacity: nat, x: T)
    requires capacity > 0
    ensures (exists schedule: seq<Step<T>> :: Reaches(capacity, schedule, capacity)) <==> capacity < SEMAPHORE_RANGE
  {
    if capacity < SEMAPHORE_RANGE {
      var schedule := Fill(capacity, x, capacity);
      assert Reaches(capacity, schedule, capacity);
    } else {
      forall schedule: seq<Step<T>> | Feasible(Created(capacity), schedule)
        ensures |Run(Created(capacity), schedule).inner| < capacity
      {
        assert Balanced<T>(Created(capacity));
        RunKeepsBalance<T>(Created(capacity), schedule);
      }
    }
  }

  // ---------------------------------------------------------------- calls that go through

  lemma Three<T>(s: State<T>, a: Step<T>, s1: State<T>, b: Step<T>, s2: State<T>, c: Step<T>, s3: State<T>)
    requires Enabled(s, a) && Apply(s, a) == s1 && Enabled(s1, b) && Apply(s1, b) == s2
    requires Enabled(s2, c) && Apply(s2, c) == s3
    ensures Feasible(s, [a, b, c]) && Run(s, [a, b, c]) == s3
  {
    assert [a, b, c][1..] == [b, c] && [b, c][1..] == [c] && [c][1..] == [];
    assert Feasible(s3, []) && Run(s3, []) == s3;
    assert Feasible(s2, [c]) && Run(s2, [c]) == s3;
    assert Feasible(s1, [b, c]) && Run(s1, [b, c]) == s3;
  }

  /** Wherever the consumer is, an enqueue goes through when there is a slot and no shutdown stops it. */
  lemma EnqueueStores<T>(s: State<T>, x: T, ignoreShutdown: bool)
    requires Balanced(s) && s.producer.Outside? && s.slots > 0 && (!s.shutdown || ignoreShutdown)
    ensures Feasible(s, [WaitForSlot(x, ignoreShutdown), TryEnqueue, SignalItem])
    ensures Run(s, [WaitForSlot(x, ignoreShutdown), TryEnqueue, SignalItem]) ==
            s.(inner := s.inner + [x], put := s.put + [x], items := s.items + 1, slots := s.slots - 1)
  {
    var s1 := s.(slots := s.slots - 1, producer := Granted(x));
    var s2 := s1.(inner := s.inner + [x], put := s.put + [x], producer := Pushed);
    Three(s, WaitForSlot(x, ignoreShutdown), s1, TryEnqueue, s2, SignalItem,
          s2.(items := s.items + 1, producer := Outside));
  }

  /** Wherever the producer is, a dequeue delivers the front when there is an item and no shutdown stops it. */
  lemma DequeueDelivers<T>(s: State<T>, ignoreShutdown: bool)
    requires Balanced(s) && s.consumer.Away? && s.items > 0 && (!s.shutdown || ignoreShutdown)
    ensures s.inner != [] && Feasible(s, [WaitForItem(ignoreShutdown), TryDequeue, SignalSlot])
    ensures Run(s, [WaitForItem(ignoreShutdown), TryDequeue, SignalSlot]) ==
            s.(inner := s.inner[1..], taken := s.taken + [s.inner[0]], items := s.items - 1, slots := s.slots + 1)
  {
    var s1 := s.(items := s.items - 1, consumer := Entitled);
    var s2 := s1.(inner := s.inner[1..], taken := s.taken + [s.inner[0]], consumer := Popped(s.inner[0]));
    Three(s, WaitForItem(ignoreShutdown), s1, TryDequeue, s2, SignalSlot,
          s2.(slots := s.slots + 1, consumer := Away));
  }

  // ---------------------------------------------------------------- shutdown

  /** No wait of the schedule ignores the shutdown event. */
  ghost predicate Heeding<T>(schedule: seq<Step<T>>) {
    forall i | 0 <= i < |schedule| && (schedule[i].WaitForSlot? || schedule[i].WaitForItem?) ::
      !schedule[i].ignoreShutdown
  }

  /** After a shutdown only the calls that already hold a permit have an effect: the producer puts at most the item
      it was granted a slot for, the consumer takes at most the one it was promised, and once both sides are out
      nothing changes any more. */
  lemma {:induction false} ShutdownStopsBothSides<T>(s: State<T>, later: seq<Step<T>>)
    requires s.shutdown && Balanced(s) && Feasible(s, later) && Heeding(later)
    ensures var s' := Run(s, later);
      && s'.shutdown && Balanced(s')
      && (s'.put == s.put || (s.producer.Granted? && s'.put == s.put + [s.producer.x]))
      && (s'.taken == s.taken || (s.consumer.Entitled? && s'.taken == s.taken + [s.inner[0]]))
      && (s.producer.Outside? && s.consumer.Away? ==> s' == s)
    decreases |later|
  {
    if later != [] {
      StepKeepsBalance(s, later[0]);
      ShutdownStopsBothSides(Apply(s, later[0]), later[1..]);
    }
  }

  /** So in every run, whatever came before the shutdown. */
  lemma NothingAfterShutdown<T>(capacity: nat, before: seq<Step<T>>, later: seq<Step<T>>)
    requires capacity > 0 && Feasible(Created(capacity), before)
    requires var s := Apply(Run(Created(capacity), before), Shutdown); Feasible(s, later) && Heeding(later)
    ensures var s := Apply(Run(Created(capacity), before), Shutdown); var s' := Run(s, later);
      && |s'.put| <= |s.put| + One(s.producer.Granted?) && |s'.taken| <= |s.taken| + One(s.consumer.Entitled?)
      && s'.taken + s'.inner == s'.put && !s'.asserted
      && (s.producer.Outside? && s.consumer.Away? ==> s' == s)
  {
    assert Balanced<T>(Created(capacity));
    RunKeepsBalance<T>(Created(capacity), before);
    ShutdownStopsBothSides(Apply(Run(Created(capacity), before), Shutdown), later);
  }
}
