/**
 The object pool: reference-counted handles over the single-producer single-consumer queue. Any number of
 threads copy, move and release handles; the acquire mutex and the return mutex make each side of the
 queue single. A call is cut at every access to the queue, its semaphores and the reference count.
 */
module ObjectPool {
  import opened SpscQueue
  import opened Wrappers

  type Object = nat
  type Handle = nat

  const COUNT_RANGE: nat := 0x1_0000_0000  // the count is an atomic uint32_t

  datatype Item = Item(
    count: nat,            // m_ref_count
    handles: set<Handle>,  // the live Pooled values that refer to the object
    returning: bool,       // its count reached 0 and its thread waits for m_return_mutex
    lost: bool)            // dropped because the queue was shut down

  /** The thread inside acquire, which owns m_acquire_mutex. */
  datatype Acquirer = Nobody | MayTake | Took(o: Object) | GaveSlot(o: Object)

  /** The thread inside return_to_pool, which owns m_return_mutex. */
  datatype Returner = Noone | Locked(o: Object) | MayPut(o: Object) | Put

  datatype Pool = Pool(
    queue: seq<Object>, items: nat, slots: nat, shutdown: bool,
    objects: seq<Item>, acquirer: Acquirer, returner: Returner,
    blocked: bool,    // history: a return found no slot
    asserted: bool)   // history: a queue operation failed after its wait

  function Iota(n: nat): (r: seq<Object>)
    ensures |r| == n && forall i | 0 <= i < n :: r[i] == i
  {
    seq(n, i => i)
  }

  /** The objects that the queue can hold: its semaphore starts at the 32-bit remainder of the capacity. */
  function Usable(capacity: nat): (n: nat)
    ensures n <= capacity && (n == capacity <==> capacity < SEMAPHORE_RANGE)
  {
    capacity % SEMAPHORE_RANGE
  }

  /** Each object is queued with count 0, or was dropped because the queue had no slot for it. */
  function Created(capacity: nat): Pool {
    Pool(Iota(Usable(capacity)), Usable(capacity), 0, false,
         seq(capacity, o => Item(0, {}, false, o >= Usable(capacity))), Nobody, Noone, false, false)
  }

  /** create_shared: each new object has count 1 and one handle, which is released; the count reaches 0 and the object
      goes to the queue. */
  method CreateShared(count: nat) returns (status: Status, queue: Queue?<Object>, objects: seq<Item>)
    ensures count == 0 <==> status == InvalidArgument
    ensures status == InvalidArgument <==> queue == null
    ensures queue != null ==> fresh(queue) && queue.Valid() && !queue.shutdown
    ensures queue != null ==>
              var pool := Created(count);
              && queue.inner == pool.queue && queue.items == pool.items && queue.slots == pool.slots
              && objects == pool.objects
  {
    objects := [];
    status, queue := Create<Object>(count);
    if queue != null {
      for i := 0 to count
        invariant queue.Valid() && fresh(queue) && !queue.shutdown && queue.capacity == count
        invariant queue.inner == Iota(if i < Usable(count) then i else Usable(count))
        invariant |objects| == i && forall o | 0 <= o < i :: objects[o] == Item(0, {}, false, o >= Usable(count))
      {
        var item := Handled(Item(1, {0}, false, false), Release(i, 0));
        assert item == Item(0, {}, true, false);
        var returned := queue.Enqueue(i, false);
        objects := objects + [item.(returning := false, lost := returned != Success)];
      }
    }
  }

  datatype AcquireStep = WaitForObject | Take | GiveSlot | HandOut(h: Handle)

  datatype HandleStep =
    | Copy(o: Object, h: Handle, to: Handle) | Move(o: Object, h: Handle, to: Handle) | Release(o: Object, h: Handle)

  datatype ReturnStep = LockReturn(o: Object) | WaitForRoom | PutBack | GiveObject

  datatype Step = Acquire(a: AcquireStep) | Handling(g: HandleStep) | Return(r: ReturnStep) | ShutDown

  function Set(s: Pool, o: Object, item: Item): Pool
    requires o < |s.objects|
  {
    s.(objects := s.objects[o := item])
  }

  predicate CanAcquire(s: Pool, step: AcquireStep) {
    match step
    case WaitForObject => s.acquirer.Nobody?
    case Take => s.acquirer.MayTake?
    case GiveSlot => s.acquirer.Took?
    case HandOut(_) => s.acquirer.GaveSlot? && s.acquirer.o < |s.objects|
  }

  function DoAcquire(s: Pool, step: AcquireStep): Pool
    requires CanAcquire(s, step)
  {
    match step
    case WaitForObject =>
      if WaitResult(s.items, s.shutdown, false) == Success then s.(items := s.items - 1, acquirer := MayTake) else s
    case Take =>
      if s.queue == [] then s.(asserted := true) else s.(queue := s.queue[1..], acquirer := Took(s.queue[0]))
    case GiveSlot => s.(slots := s.slots + 1, acquirer := GaveSlot(s.acquirer.o))
    case HandOut(h) =>
      var item := s.objects[s.acquirer.o];
      Set(s, s.acquirer.o, item.(count := 1, handles := item.handles + {h})).(acquirer := Nobody)
  }

  /** Copies come from a live handle, and a process never holds as many handles as the count can tell apart. */
  predicate CanHandle(s: Pool, step: HandleStep) {
    && step.o < |s.objects| && step.h in s.objects[step.o].handles
    && match step
       case Copy(o, _, to) => to !in s.objects[o].handles && |s.objects[o].handles| < COUNT_RANGE - 1
       case Move(o, _, to) => to !in s.objects[o].handles
       case Release(_, _) => true
  }

  function Handled(item: Item, step: HandleStep): Item {
    match step
    case Copy(_, _, to) => item.(count := (item.count + 1) % COUNT_RANGE, handles := item.handles + {to})
    case Move(_, h, to) => item.(handles := item.handles - {h} + {to})
    case Release(_, h) =>
      var left := (item.count + COUNT_RANGE - 1) % COUNT_RANGE;
      item.(count := left, handles := item.handles - {h}, returning := item.returning || left == 0)
  }

  function DoHandle(s: Pool, step: HandleStep): Pool
    requires CanHandle(s, step)
  {
    Set(s, step.o, Handled(s.objects[step.o], step))
  }

  predicate CanReturn(s: Pool, step: ReturnStep) {
    match step
    case LockReturn(o) => s.returner.Noone? && o < |s.objects| && s.objects[o].returning
    case WaitForRoom => s.returner.Locked? && s.returner.o < |s.objects|
    case PutBack => s.returner.MayPut?
    case GiveObject => s.returner.Put?
  }

  function DoReturn(s: Pool, step: ReturnStep): Pool
    requires CanReturn(s, step)
  {
    match step
    case LockReturn(o) => Set(s, o, s.objects[o].(returning := false)).(returner := Locked(o))
    case WaitForRoom =>
      var status := WaitResult(s.slots, s.shutdown, false);
      if status == Success then s.(slots := s.slots - 1, returner := MayPut(s.returner.o))
      else if status == Timeout then s.(blocked := true)
      else Set(s, s.returner.o, s.objects[s.returner.o].(lost := true)).(returner := Noone)
    case PutBack =>
      if |s.queue| >= |s.objects| then s.(asserted := true)
      else s.(queue := s.queue + [s.returner.o], returner := Put)
    case GiveObject => s.(items := s.items + 1, returner := Noone)
  }

  predicate Enabled(s: Pool, step: Step) {
    match step
    case Acquire(a) => CanAcquire(s, a)
    case Handling(g) => CanHandle(s, g)
    case Return(r) => CanReturn(s, r)
    case ShutDown => true
  }

  function Apply(s: Pool, step: Step): Pool
    requires Enabled(s, step)
  {
    match step
    case Acquire(a) => DoAcquire(s, a)
    case Handling(g) => DoHandle(s, g)
    case Return(r) => DoReturn(s, r)
    case ShutDown => s.(shutdown := true)
  }

  ghost predicate Feasible(s: Pool, schedule: seq<Step>)
    decreases |schedule|
  {
    schedule == [] || (Enabled(s, schedule[0]) && Feasible(Apply(s, schedule[0]), schedule[1..]))
  }

  ghost function Run(s: Pool, schedule: seq<Step>): Pool
    requires Feasible(s, schedule)
    decreases |schedule|
  {
    if schedule == [] then s else Run(Apply(s, schedule[0]), schedule[1..])
  }

  // ---------------------------------------------------------------- invariant

  predicate Acquiring(s: Pool, o: Object) { s.acquirer == Took(o) || s.acquirer == GaveSlot(o) }

  predicate Putting(s: Pool, o: Object) { s.returner == Locked(o) || s.returner == MayPut(o) }

  /** In how many places the object is. */
  function Places(s: Pool, o: Object): nat
    requires o < |s.objects|
  {
    var item := s.objects[o];
    multiset(s.queue)[o] + One(Acquiring(s, o)) + One(item.handles != {})
    + One(item.returning) + One(Putting(s, o)) + One(item.lost)
  }

  predicate Placed(s: Pool, o: Object)
    requires o < |s.objects|
  {
    && Places(s, o) == 1 && s.objects[o].count == |s.objects[o].handles| < COUNT_RANGE
    && (o >= Usable(|s.objects|) ==> s.objects[o].lost)
    && (s.objects[o].lost ==> s.shutdown || o >= Usable(|s.objects|))
  }

  ghost predicate Known(s: Pool) {
    && (forall i | 0 <= i < |s.queue| :: s.queue[i] < |s.objects|)
    && (s.acquirer.Took? || s.acquirer.GaveSlot? ==> s.acquirer.o < |s.objects|)
    && (s.returner.Locked? || s.returner.MayPut? ==> s.returner.o < |s.objects|)
  }

  /** The balance of the queue's semaphores, with the permits that running calls hold. */
  ghost predicate Balance(s: Pool) {
    && |s.queue| + s.slots + One(s.returner.MayPut?) + One(s.acquirer.Took?) == Usable(|s.objects|)
    && s.items + One(s.acquirer.MayTake?) + One(s.returner.Put?) == |s.queue|
    && !s.blocked && !s.asserted
  }

  ghost predicate Inv(s: Pool) {
    Known(s) && Balance(s) && forall o | 0 <= o < |s.objects| :: Placed(s, o)
  }

  lemma TakeKeepsPlaced(s: Pool, o: Object)
    requires CanAcquire(s, Take) && o < |s.objects| && Placed(s, o)
    ensures Placed(DoAcquire(s, Take), o)
  {
    if s.queue != [] { assert s.queue == [s.queue[0]] + s.queue[1..]; }
  }

  lemma HandOutKeepsPlaced(s: Pool, h: Handle, o: Object)
    requires CanAcquire(s, HandOut(h)) && o < |s.objects| && Placed(s, o) && Placed(s, s.acquirer.o)
    ensures Placed(DoAcquire(s, HandOut(h)), o)
  {
    if s.acquirer.o == o { assert s.objects[o].handles == {} && {} + {h} == {h}; }
  }

  lemma AcquireKeepsPlaced(s: Pool, step: AcquireStep, o: Object)
    requires Known(s) && CanAcquire(s, step) && o < |s.objects| && Placed(s, o)
    requires s.acquirer.GaveSlot? ==> Placed(s, s.acquirer.o)
    ensures Placed(DoAcquire(s, step), o)
  {
    match step
    case Take => TakeKeepsPlaced(s, o);
    case HandOut(h) => HandOutKeepsPlaced(s, h, o);
    case _ =>
  }

  lemma WrapsNowhere(n: nat)
    requires 0 < n < COUNT_RANGE
    ensures (n + COUNT_RANGE - 1) % COUNT_RANGE == n - 1 && (n - 1 + 1) % COUNT_RANGE == n
  {
  }

  lemma CopiedItem(item: Item, o: Object, h: Handle, to: Handle)
    requires h in item.handles && to !in item.handles && item.count == |item.handles| < COUNT_RANGE - 1
    ensures var next := Handled(item, Copy(o, h, to));
      && next.count == |next.handles| < COUNT_RANGE && next.handles != {}
      && next == item.(count := next.count, handles := next.handles)
  {
    WrapsNowhere(item.count + 1);
  }

  lemma MovedItem(item: Item, o: Object, h: Handle, to: Handle)
    requires h in item.handles && to !in item.handles && item.count == |item.handles| < COUNT_RANGE
    ensures var next := Handled(item, Move(o, h, to));
      next.count == |next.handles| < COUNT_RANGE && next.handles != {} && next == item.(handles := next.handles)
  {
    assert |item.handles - {h}| == |item.handles| - 1;
  }

  lemma ReleasedItem(item: Item, o: Object, h: Handle)
    requires h in item.handles && item.count == |item.handles| < COUNT_RANGE && !item.returning
    ensures var next := Handled(item, Release(o, h));
      && next.count == |next.handles| < COUNT_RANGE && (next.returning <==> next.handles == {})
      && next == item.(count := next.count, handles := next.handles, returning := next.returning)
  {
    WrapsNowhere(item.count);
    assert |item.handles - {h}| == |item.handles| - 1;
  }

  /** The count follows the number of handles, and exactly the last release leaves a return to do. */
  lemma HandledItem(item: Item, step: HandleStep)
    requires step.h in item.handles && item.count == |item.handles| < COUNT_RANGE && !item.returning
    requires !step.Release? ==> step.to !in item.handles
    requires step.Copy? ==> |item.handles| < COUNT_RANGE - 1
    ensures var next := Handled(item, step);
      && next.count == |next.handles| < COUNT_RANGE && next.lost == item.lost
      && (next.returning <==> next.handles == {})
  {
    hide Handled;
    match step {
      case Copy(o, h, to) => CopiedItem(item, o, h, to);
      case Move(o, h, to) => MovedItem(item, o, h, to);
      case Release(o, h) => ReleasedItem(item, o, h);
    }
  }

  lemma HandleKeepsPlaced(s: Pool, step: HandleStep, o: Object)
    requires CanHandle(s, step) && o < |s.objects| && Placed(s, o)
    ensures Placed(DoHandle(s, step), o)
  {
    if step.o == o {
      hide Handled;
      HandledItem(s.objects[o], step);
    }
  }

  lemma PutBackKeepsPlaced(s: Pool, o: Object)
    requires CanReturn(s, PutBack) && o < |s.objects| && Placed(s, o)
    ensures Placed(DoReturn(s, PutBack), o)
  {
  }

  lemma LockReturnKeepsPlaced(s: Pool, u: Object, o: Object)
    requires CanReturn(s, LockReturn(u)) && o < |s.objects| && Placed(s, o)
    ensures Placed(DoReturn(s, LockReturn(u)), o)
  {
  }

  lemma ReturnKeepsPlaced(s: Pool, step: ReturnStep, o: Object)
    requires CanReturn(s, step) && o < |s.objects| && Placed(s, o)
    ensures Placed(DoReturn(s, step), o)
  {
    match step
    case PutBack => PutBackKeepsPlaced(s, o);
    case LockReturn(u) => LockReturnKeepsPlaced(s, u, o);
    case _ =>
  }

  // ---------------------------------------------------------------- a return always finds a slot

  function Elements(q: seq<Object>): set<Object> { set o | o in q }

  lemma {:induction false} DistinctSize(q: seq<Object>)
    requires forall o :: multiset(q)[o] <= 1
    ensures |Elements(q)| == |q|
  {
    if q != [] {
      assert q == [q[0]] + q[1..];
      assert forall o :: multiset(q)[o] == multiset(q[1..])[o] + One(o == q[0]);
      DistinctSize(q[1..]);
      assert multiset(q)[q[0]] <= 1;
      assert q[0] !in q[1..];
      assert Elements(q) == Elements(q[1..]) + {q[0]};
    }
  }

  lemma {:induction false} AtMost(a: set<Object>, n: nat)
    requires forall o | o in a :: o < n
    ensures |a| <= n
  {
    if n == 0 {
      assert a == {};
    } else {
      AtMost(a - {n - 1}, n - 1);
    }
  }

  lemma QueueIsDistinct(s: Pool)
    requires Inv(s)
    ensures |Elements(s.queue)| == |s.queue| && forall o | o in s.queue :: o < Usable(|s.objects|)
  {
    forall o ensures multiset(s.queue)[o] <= 1 && (o in s.queue ==> o < Usable(|s.objects|)) {
      if o in s.queue { assert Placed(s, o); }
    }
    DistinctSize(s.queue);
  }

  /** The queue misses at least the object being returned and the one being acquired. */
  lemma RoomForReturn(s: Pool)
    requires Inv(s) && s.returner.Locked?
    ensures |s.queue| + 1 + One(s.acquirer.Took?) <= Usable(|s.objects|)
  {
    QueueIsDistinct(s);
    assert Placed(s, s.returner.o);
    var others := {s.returner.o};
    if s.acquirer.Took? {
      assert Placed(s, s.acquirer.o);
      others := others + {s.acquirer.o};
    }
    assert Elements(s.queue) !! others;
    AtMost(Elements(s.queue) + others, Usable(|s.objects|));
  }

  lemma AcquireKeepsBalance(s: Pool, step: AcquireStep)
    requires Known(s) && Balance(s) && CanAcquire(s, step)
    ensures Known(DoAcquire(s, step)) && Balance(DoAcquire(s, step)) && |DoAcquire(s, step).objects| == |s.objects|
  {
  }

  lemma ReturnKeepsBalance(s: Pool, step: ReturnStep)
    requires Known(s) && Balance(s) && CanReturn(s, step)
    requires s.returner.Locked? ==> |s.queue| + 1 + One(s.acquirer.Took?) <= Usable(|s.objects|)
    ensures Known(DoReturn(s, step)) && Balance(DoReturn(s, step)) && |DoReturn(s, step).objects| == |s.objects|
  {
  }

  lemma StepKeepsBalance(s: Pool, step: Step)
    requires Inv(s) && Enabled(s, step)
    ensures Known(Apply(s, step)) && Balance(Apply(s, step)) && |Apply(s, step).objects| == |s.objects|
  {
    if s.returner.Locked? { RoomForReturn(s); }
    match step
    case Acquire(a) => AcquireKeepsBalance(s, a);
    case Return(r) => ReturnKeepsBalance(s, r);
    case _ =>
  }

  lemma StepKeepsInv(s: Pool, step: Step)
    requires Inv(s) && Enabled(s, step)
    ensures Inv(Apply(s, step)) && |Apply(s, step).objects| == |s.objects|
  {
    StepKeepsBalance(s, step);
    forall o | 0 <= o < |s.objects| ensures Placed(Apply(s, step), o) {
      assert Placed(s, o);
      match step
      case Acquire(a) => AcquireKeepsPlaced(s, a, o);
      case Handling(g) => HandleKeepsPlaced(s, g, o);
      case Return(r) => ReturnKeepsPlaced(s, r, o);
      case ShutDown =>
    }
  }

  lemma {:induction false} RunKeepsInv(s: Pool, schedule: seq<Step>)
    requires Inv(s) && Feasible(s, schedule)
    ensures Inv(Run(s, schedule)) && |Run(s, schedule).objects| == |s.objects|
    decreases |schedule|
  {
    if schedule != [] {
      StepKeepsInv(s, schedule[0]);
      RunKeepsInv(Apply(s, schedule[0]), schedule[1..]);
    }
  }

  lemma {:induction false} IotaIsDistinct(n: nat, o: Object)
    ensures multiset(Iota(n))[o] == One(o < n)
  {
    if n > 0 {
      assert Iota(n) == Iota(n - 1) + [n - 1];
      IotaIsDistinct(n - 1, o);
    }
  }

  lemma CreatedIsGood(capacity: nat)
    ensures Inv(Created(capacity))
  {
    forall o | 0 <= o < capacity ensures Placed(Created(capacity), o) { IotaIsDistinct(Usable(capacity), o); }
  }

  /** In every interleaving each object is in exactly one place and its count is the number of its live
      handles; no return ever finds the queue full, and no queue operation fails after its wait. */
  lemma OnePlacePerObject(capacity: nat, schedule: seq<Step>, o: Object)
    requires capacity > 0 && o < capacity && Feasible(Created(capacity), schedule)
    ensures var s := Run(Created(capacity), schedule);
      && |s.objects| == capacity
      && Places(s, o) == 1 && s.objects[o].count == |s.objects[o].handles|
      && (s.returner.Locked? ==> s.slots > 0)
      && !s.blocked && !s.asserted
  {
    CreatedIsGood(capacity);
    RunKeepsInv(Created(capacity), schedule);
    var s := Run(Created(capacity), schedule);
    assert Placed(s, o);
    if s.returner.Locked? { RoomForReturn(s); }
  }

  /** Nobody is inside acquire or release. */
  ghost predicate Quiet(s: Pool) {
    && s.acquirer.Nobody? && s.returner.Noone?
    && forall o | 0 <= o < |s.objects| :: !s.objects[o].returning
  }

  function Outstanding(s: Pool): set<Object> { set o | 0 <= o < |s.objects| && s.objects[o].handles != {} }

  predicate QueuedXorOut(s: Pool, o: Object)
    requires o < |s.objects|
  {
    if s.objects[o].count == 0 then multiset(s.queue)[o] == 1 && o !in Outstanding(s)
    else o !in s.queue && o in Outstanding(s)
  }

  lemma QuietObject(s: Pool, o: Object)
    requires Inv(s) && Quiet(s) && !s.shutdown && o < |s.objects|
    ensures if o < Usable(|s.objects|) then QueuedXorOut(s, o) else o !in s.queue && o !in Outstanding(s)
  {
    assert Placed(s, o);
  }

  /** Between calls and before a shutdown an object that fits is either queued once with count 0, or outstanding with
      at least one handle, and the two groups make up the capacity, as far as the semaphore can count it. */
  lemma QueuedOrOutstanding(capacity: nat, schedule: seq<Step>)
    requires capacity > 0 && Feasible(Created(capacity), schedule)
    requires var s := Run(Created(capacity), schedule); Quiet(s) && !s.shutdown
    ensures var s := Run(Created(capacity), schedule);
      && |s.objects| == capacity && |s.queue| + |Outstanding(s)| == Usable(capacity)
      && (|s.queue| + |Outstanding(s)| == capacity <==> capacity < SEMAPHORE_RANGE)
      && (forall o | 0 <= o < Usable(capacity) :: QueuedXorOut(s, o))
      && s.items == |s.queue| && s.slots == |Outstanding(s)|
  {
    hide Placed;
    CreatedIsGood(capacity);
    RunKeepsInv(Created(capacity), schedule);
    var s := Run(Created(capacity), schedule);
    forall o | 0 <= o < capacity
      ensures if o < Usable(capacity) then QueuedXorOut(s, o) else o !in s.queue && o !in Outstanding(s)
    {
      QuietObject(s, o);
    }
    QueueIsDistinct(s);
    PartitionSize(Elements(s.queue), Outstanding(s), Usable(capacity));
  }

  lemma {:induction false} PartitionSize(a: set<Object>, b: set<Object>, n: nat)
    requires forall o | o in a || o in b :: o < n
    requires forall o | 0 <= o < n :: o in a <==> o !in b
    ensures |a| + |b| == n
  {
    if n == 0 {
      assert a == {} && b == {};
    } else {
      PartitionSize(a - {n - 1}, b - {n - 1}, n - 1);
    }
  }
}
