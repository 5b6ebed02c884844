/**
 What the pool gets done: from every state of every run, acquire hands out the object at the front, copies and moves
 pass it on, and the last release brings it back.
 */
module ObjectPoolRuns {
  import opened ObjectPool
  import opened Wrappers

  /** The schedule leads from `s` to `s'`. */
  ghost predicate Goes(s: Pool, schedule: seq<Step>, s': Pool) {
    Feasible(s, schedule) && Run(s, schedule) == s'
  }

  lemma Stay(s: Pool)
    ensures Goes(s, [], s)
  {
  }

  lemma First(s: Pool, step: Step, next: Pool, rest: seq<Step>, s': Pool)
    requires Enabled(s, step) && Apply(s, step) == next && Goes(next, rest, s')
    ensures Goes(s, [step] + rest, s')
  {
    assert ([step] + rest)[0] == step && ([step] + rest)[1..] == rest;
  }

  lemma Two(s: Pool, a: Step, s1: Pool, b: Step, s2: Pool)
    requires Enabled(s, a) && Apply(s, a) == s1
    requires Enabled(s1, b) && Apply(s1, b) == s2
    ensures Goes(s, [a, b], s2)
  {
    hide Goes;
    Stay(s2);
    First(s1, b, s2, [], s2);
    First(s, a, s1, [b] + [], s2);
    assert [a] + ([b] + []) == [a, b];
  }

  lemma Three(s: Pool, a: Step, s1: Pool, b: Step, s2: Pool, c: Step, s3: Pool)
    requires Enabled(s, a) && Apply(s, a) == s1
    requires Enabled(s1, b) && Apply(s1, b) == s2
    requires Enabled(s2, c) && Apply(s2, c) == s3
    ensures Goes(s, [a, b, c], s3)
  {
    hide Goes;
    Two(s1, b, s2, c, s3);
    First(s, a, s1, [b, c], s3);
    assert [a] + [b, c] == [a, b, c];
  }

  lemma QueuedIsFree(s: Pool)
    requires Inv(s) && s.queue != []
    ensures s.queue[0] < |s.objects| && s.objects[s.queue[0]] == Item(0, {}, false, false)
  {
    assert s.queue[0] in s.queue && Placed(s, s.queue[0]);
  }

  // ---------------------------------------------------------------- acquire

  /** Acquire hands out the object at the front, with count 1 and one handle; nothing else changes. */
  lemma AcquireHandsOut(s: Pool, h: Handle)
    requires Inv(s) && s.acquirer.Nobody? && !s.shutdown && s.items > 0
    ensures s.queue != [] && s.queue[0] < |s.objects|
    ensures Goes(s, [Acquire(WaitForObject)] + [Acquire(Take), Acquire(GiveSlot), Acquire(HandOut(h))],
                 s.(queue := s.queue[1..], items := s.items - 1, slots := s.slots + 1,
                    objects := s.objects[s.queue[0] := Item(1, {h}, false, false)]))
  {
    QueuedIsFree(s);
    hide Goes, Inv;
    var o := s.queue[0];
    var s1 := s.(items := s.items - 1, acquirer := MayTake);
    var s2 := s1.(queue := s.queue[1..], acquirer := Took(o));
    var s3 := s2.(slots := s.slots + 1, acquirer := GaveSlot(o));
    var s4 := s3.(objects := s.objects[o := Item(1, {h}, false, false)], acquirer := Nobody);
    assert {} + {h} == {h};
    Three(s1, Acquire(Take), s2, Acquire(GiveSlot), s3, Acquire(HandOut(h)), s4);
    First(s, Acquire(WaitForObject), s1, [Acquire(Take), Acquire(GiveSlot), Acquire(HandOut(h))], s4);
  }

  /** So it does after every run: while the pool is not shut down and an object is queued, acquire gets it. */
  lemma AcquireAlwaysWorks(capacity: nat, before: seq<Step>, h: Handle)
    requires capacity > 0 && Feasible(Created(capacity), before)
    requires var s := Run(Created(capacity), before); s.acquirer.Nobody? && !s.shutdown && s.items > 0
    ensures var s := Run(Created(capacity), before);
      && s.queue != [] && s.queue[0] < |s.objects| && s.objects[s.queue[0]].handles == {}
      && exists schedule, s' :: Goes(s, schedule, s') && |s'.objects| == |s.objects| && s'.queue == s.queue[1..]
           && s'.objects[s.queue[0]].handles == {h} && s'.objects[s.queue[0]].count == 1
           && forall o | 0 <= o < |s.objects| && o != s.queue[0] :: s'.objects[o] == s.objects[o]
  {
    CreatedIsGood(capacity);
    RunKeepsInv(Created(capacity), before);
    var s := Run(Created(capacity), before);
    AcquireHandsOut(s, h);
    QueuedIsFree(s);
    var s' := s.(queue := s.queue[1..], items := s.items - 1, slots := s.slots + 1,
                 objects := s.objects[s.queue[0] := Item(1, {h}, false, false)]);
    assert Goes(s, [Acquire(WaitForObject)] + [Acquire(Take), Acquire(GiveSlot), Acquire(HandOut(h))], s');
  }

  /** Without an object, or after a shutdown, acquire goes away empty-handed. */
  lemma AcquireFails(s: Pool)
    requires s.acquirer.Nobody? && (s.shutdown || s.items == 0)
    ensures Goes(s, [Acquire(WaitForObject)], s)
  {
    Stay(s);
    First(s, Acquire(WaitForObject), s, [], s);
    assert [Acquire(WaitForObject)] + [] == [Acquire(WaitForObject)];
  }

  /** After a shutdown nobody gets an object that had no handle, whatever happens. */
  lemma {:induction false} ShutdownHandsOutNothing(s: Pool, later: seq<Step>, o: Object)
    requires s.shutdown && s.acquirer.Nobody? && o < |s.objects| && s.objects[o].handles == {}
    requires Feasible(s, later)
    ensures var s' := Run(s, later);
      s'.shutdown && s'.acquirer.Nobody? && o < |s'.objects| && s'.objects[o].handles == {}
    decreases |later|
  {
    if later != [] { ShutdownHandsOutNothing(Apply(s, later[0]), later[1..], o); }
  }

  // ---------------------------------------------------------------- handles

  /** A copy keeps the object out when the original goes. */
  lemma CopyOutlivesOriginal(s: Pool, o: Object, h: Handle, to: Handle)
    requires Inv(s) && o < |s.objects| && s.objects[o].handles == {h} && h != to
    ensures Goes(s, [Handling(Copy(o, h, to)), Handling(Release(o, h))],
                 s.(objects := s.objects[o := Item(1, {to}, false, false)]))
  {
    assert Placed(s, o);
    hide Goes, Inv;
    var s1 := s.(objects := s.objects[o := Item(2, {h, to}, false, false)]);
    var s2 := s.(objects := s.objects[o := Item(1, {to}, false, false)]);
    assert {h} + {to} == {h, to} && {h, to} - {h} == {to} && |{h}| == 1;
    assert s1.objects[o := Item(1, {to}, false, false)] == s2.objects;
    Two(s, Handling(Copy(o, h, to)), s1, Handling(Release(o, h)), s2);
  }

  /** A move passes the object on: releasing the new handle is what releasing the old one was. */
  lemma MovePassesOn(s: Pool, o: Object, h: Handle, to: Handle)
    requires Inv(s) && o < |s.objects| && h in s.objects[o].handles && to !in s.objects[o].handles
    ensures CanHandle(s, Release(o, h))
    ensures Goes(s, [Handling(Move(o, h, to)), Handling(Release(o, to))], DoHandle(s, Release(o, h)))
  {
    hide Goes, Inv;
    var item := s.objects[o];
    var s1 := s.(objects := s.objects[o := item.(handles := item.handles - {h} + {to})]);
    var s2 := DoHandle(s, Release(o, h));
    assert item.handles - {h} + {to} - {to} == item.handles - {h};
    assert DoHandle(s1, Release(o, to)).objects == s2.objects;
    Two(s, Handling(Move(o, h, to)), s1, Handling(Release(o, to)), s2);
  }

  // ---------------------------------------------------------------- return

  lemma LastRelease(s: Pool, o: Object, h: Handle)
    requires Inv(s) && s.returner.Noone? && o < |s.objects| && s.objects[o].handles == {h}
    ensures var released := s.(objects := s.objects[o := Item(0, {}, true, false)]);
      var locked := s.(objects := s.objects[o := Item(0, {}, false, false)], returner := Locked(o));
      && Enabled(s, Handling(Release(o, h))) && Apply(s, Handling(Release(o, h))) == released
      && Enabled(released, Return(LockReturn(o)))
      && Apply(released, Return(LockReturn(o))) == locked
      && Inv(locked)
  {
    assert Placed(s, o);
    var released := s.(objects := s.objects[o := Item(0, {}, true, false)]);
    var locked := s.(objects := s.objects[o := Item(0, {}, false, false)], returner := Locked(o));
    assert {h} - {h} == {} && |{h}| == 1;
    assert released.objects[o := Item(0, {}, false, false)] == locked.objects;
    hide Inv;
    StepKeepsInv(s, Handling(Release(o, h)));
    StepKeepsInv(released, Return(LockReturn(o)));
  }

  /** The last release brings the object back to the end of the queue with count 0; nothing else changes. */
  lemma LastReleaseReturns(s: Pool, o: Object, h: Handle)
    requires Inv(s) && s.returner.Noone? && !s.shutdown && o < |s.objects| && s.objects[o].handles == {h}
    ensures s.slots > 0
    ensures Goes(s, [Handling(Release(o, h))] + ([Return(LockReturn(o))]
                    + [Return(WaitForRoom), Return(PutBack), Return(GiveObject)]),
                 s.(queue := s.queue + [o], items := s.items + 1, slots := s.slots - 1,
                    objects := s.objects[o := Item(0, {}, false, false)]))
  {
    LastRelease(s, o, h);
    var s1 := s.(objects := s.objects[o := Item(0, {}, true, false)]);
    var s2 := s.(objects := s.objects[o := Item(0, {}, false, false)], returner := Locked(o));
    RoomForReturn(s2);
    assert s2.slots > 0 && |s2.queue| < |s2.objects|;
    hide Goes, Inv;
    var s3 := s2.(slots := s.slots - 1, returner := MayPut(o));
    var s4 := s3.(queue := s.queue + [o], returner := Put);
    var s5 := s4.(items := s.items + 1, returner := Noone);
    Three(s2, Return(WaitForRoom), s3, Return(PutBack), s4, Return(GiveObject), s5);
    First(s1, Return(LockReturn(o)), s2, [Return(WaitForRoom), Return(PutBack), Return(GiveObject)], s5);
    First(s, Handling(Release(o, h)), s1,
          [Return(LockReturn(o))] + [Return(WaitForRoom), Return(PutBack), Return(GiveObject)], s5);
  }

  /** After a shutdown the object is dropped instead. */
  lemma LastReleaseDrops(s: Pool, o: Object, h: Handle)
    requires Inv(s) && s.returner.Noone? && s.shutdown && o < |s.objects| && s.objects[o].handles == {h}
    ensures Goes(s, [Handling(Release(o, h)), Return(LockReturn(o)), Return(WaitForRoom)],
                 s.(objects := s.objects[o := Item(0, {}, false, true)]))
  {
    LastRelease(s, o, h);
    hide Goes, Inv;
    var s1 := s.(objects := s.objects[o := Item(0, {}, true, false)]);
    var s2 := s.(objects := s.objects[o := Item(0, {}, false, false)], returner := Locked(o));
    var s3 := s.(objects := s.objects[o := Item(0, {}, false, true)]);
    assert s2.objects[o := Item(0, {}, false, true)] == s3.objects;
    Three(s, Handling(Release(o, h)), s1, Return(LockReturn(o)), s2, Return(WaitForRoom), s3);
  }

  /** Acquire and release in turn give the objects out in a circle: what went out first comes back last. */
  lemma RoundTrip(s: Pool, h: Handle)
    requires Inv(s) && s.acquirer.Nobody? && s.returner.Noone? && !s.shutdown && s.items > 0
    ensures s.queue != []
    ensures exists schedule :: Goes(s, schedule, s.(queue := s.queue[1..] + [s.queue[0]]))
  {
    AcquireHandsOut(s, h);
    QueuedIsFree(s);
    var o := s.queue[0];
    var out := s.(queue := s.queue[1..], items := s.items - 1, slots := s.slots + 1,
                  objects := s.objects[o := Item(1, {h}, false, false)]);
    var first := [Acquire(WaitForObject)] + [Acquire(Take), Acquire(GiveSlot), Acquire(HandOut(h))];
    RunKeepsInv(s, first);
    LastReleaseReturns(out, o, h);
    var second := [Handling(Release(o, h))] + ([Return(LockReturn(o))]
                  + [Return(WaitForRoom), Return(PutBack), Return(GiveObject)]);
    var back := s.(queue := s.queue[1..] + [o]);
    assert out.objects[o := Item(0, {}, false, false)] == s.objects;
    Concat(s, first, out, second, back);
    assert Goes(s, first + second, back);
  }

  lemma {:induction false} Concat(s: Pool, a: seq<Step>, mid: Pool, b: seq<Step>, s': Pool)
    requires Goes(s, a, mid) && Goes(mid, b, s')
    ensures Goes(s, a + b, s')
    decreases |a|
  {
    if a == [] {
      assert a + b == b;
    } else {
      var next := Apply(s, a[0]);
      Concat(next, a[1..], mid, b, s');
      First(s, a[0], next, a[1..] + b, s');
      assert [a[0]] + (a[1..] + b) == a + b;
    }
  }
}
