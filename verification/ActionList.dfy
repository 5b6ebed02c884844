/**
 The parser of context action lists: plain actions and repeated blocks, laid end to end in at most 65535 bytes
 and walked with a 16-bit offset.
 */
module ActionList {
  import opened ActionTypes
  import Bits
  import opened LittleEndian
  import opened Wrappers

  const COMMON_HEADER: nat := 5     // type and time stamp
  const REPEATED_HEADER: nat := 3   // count, last executed and sub-action type
  const REPEATED: Byte := 24
  const ACTION_TYPES: nat := 45
  const OFFSETS: nat := 0x1_0000
  const TIMESTAMP_INIT: nat := 0xFFFF_FFFF

  /** The size of the data of each action type, in the order of the enumeration. */
  function Size(kind: nat): (n: nat)
    requires kind < ACTION_TYPES
    ensures n <= 45 && (kind == REPEATED ==> n == REPEATED_HEADER)
  {
    match kind
    case 0 => 3 case 1 => 44 case 2 => 9 case 3 => 2 case 4 => 8 case 5 => 1 case 6 => 44 case 7 => 41
    case 8 => 45 case 9 => 41 case 10 => 45 case 11 => 45 case 12 => 8 case 13 => 3 case 14 => 9 case 15 => 0
    case 16 => 1 case 17 => 1 case 18 => 5 case 19 => 5 case 20 => 1 case 21 => 0 case 22 => 21 case 23 => 2
    case 24 => 3 case 25 => 4 case 26 => 6 case 27 => 3 case 28 => 8 case 29 => 0 case 30 => 0 case 31 => 0
    case 32 => 28 case 33 => 20 case 34 => 7 case 35 => 15 case 36 => 6 case 37 => 1 case 38 => 2 case 39 => 2
    case 40 => 45 case 41 => 43 case 42 => 0 case 43 => 4 case _ => 0
  }

  lemma FirstSizes(kind: nat)
    requires kind < 23
    ensures Size(kind) == SizeOf(TypeOf(kind)) && TypeOf(kind) != RepeatedAction
  {
  }

  lemma LastSizes(kind: nat)
    requires 23 <= kind < ACTION_TYPES
    ensures Size(kind) == SizeOf(TypeOf(kind)) && (TypeOf(kind) == RepeatedAction <==> kind == REPEATED)
  {
  }

  /** The sizes are those of the packed structures, and 24 is the number of repeated actions. */
  lemma SizeIsSumOfFields(kind: nat)
    requires kind < ACTION_TYPES
    ensures Size(kind) == SizeOf(TypeOf(kind))
    ensures TypeOf(kind) == RepeatedAction <==> kind == REPEATED
  {
    hide Size, SizeOf, TypeOf;
    if kind < 23 { FirstSizes(kind); } else { LastSizes(kind); }
  }

  function Extent(count: nat, kind: nat): nat
    requires kind < ACTION_TYPES
  {
    count * Size(kind)
  }

  // ---------------------------------------------------------------- the layout

  datatype Action =
    | Plain(kind: Byte, stamp: nat, data: seq<Byte>)
    | Repeated(stamp: nat, lastExecuted: Byte, kind: Byte, subs: seq<seq<Byte>>)

  predicate AllOfSize(subs: seq<seq<Byte>>, n: nat) {
    forall i :: 0 <= i < |subs| ==> |subs[i]| == n
  }

  /** The type of an empty block is never looked at. */
  predicate WellFormed(a: Action) {
    && a.stamp < WORD
    && match a
       case Plain(kind, _, data) => kind < ACTION_TYPES && kind != REPEATED && |data| == Size(kind)
       case Repeated(_, _, kind, subs) =>
         |subs| < 256 && (subs != [] ==> kind < ACTION_TYPES && kind != REPEATED && AllOfSize(subs, Size(kind)))
  }

  function Encode(a: Action): (r: seq<Byte>)
    requires WellFormed(a)
    ensures |r| >= COMMON_HEADER
  {
    match a
    case Plain(kind, stamp, data) => [kind] + Bytes4(stamp) + data
    case Repeated(stamp, last, kind, subs) => [REPEATED] + Bytes4(stamp) + [|subs|, last, kind] + Flatten(subs)
  }

  predicate AllWellFormed(actions: seq<Action>) {
    forall i :: 0 <= i < |actions| ==> WellFormed(actions[i])
  }

  function EncodeAll(actions: seq<Action>): seq<Byte>
    requires AllWellFormed(actions)
  {
    if actions == [] then []
    else EncodeAll(actions[..|actions| - 1]) + Encode(actions[|actions| - 1])
  }

  // ---------------------------------------------------------------- what the parser must report

  datatype Item = Item(address: nat, timestamp: nat, kind: Byte, index: Option<nat>, data: seq<Byte>)

  function Address(base: nat, offset: nat): nat { (base + offset) % WORD }

  function SubItems(base: nat, at: nat, timestamp: nat, kind: Byte, subs: seq<seq<Byte>>): (r: seq<Item>)
    ensures |r| == |subs|
  {
    if subs == [] then []
    else
      var n := |subs| - 1;
      SubItems(base, at, timestamp, kind, subs[..n])
      + [Item(Address(base, at + |Flatten(subs[..n])|), timestamp, kind, Some(n), subs[n])]
  }

  /** The entries of the action at `at`: one, and one more for each sub-action. */
  function Items(base: nat, at: nat, a: Action): seq<Item>
    requires WellFormed(a)
  {
    var start, timestamp := at + COMMON_HEADER, WORD - 1 - a.stamp;
    match a
    case Plain(kind, _, data) => [Item(Address(base, start), timestamp, kind, None, data)]
    case Repeated(_, last, kind, subs) =>
      [Item(Address(base, start), timestamp, REPEATED, None, [|subs|, last, kind])]
      + SubItems(base, start + REPEATED_HEADER, timestamp, kind, subs)
  }

  function AllItems(base: nat, actions: seq<Action>): seq<Item>
    requires AllWellFormed(actions)
  {
    if actions == [] then []
    else
      var rest, last := actions[..|actions| - 1], actions[|actions| - 1];
      AllItems(base, rest) + Items(base, |EncodeAll(rest)|, last)
  }

  // ---------------------------------------------------------------- reading the layout back

  predicate ActionAt(list: seq<Byte>, at: nat, a: Action) {
    WellFormed(a) && Stands(list, at, Encode(a))
  }

  predicate HeaderAt(list: seq<Byte>, at: nat, kind: nat, stamp: nat) {
    at + COMMON_HEADER <= |list| && list[at] == kind && Field(list, at + 1) == stamp
  }

  lemma ByteStands(list: seq<Byte>, at: nat, b: Byte)
    ensures Stands(list, at, [b]) <==> at < |list| && list[at] == b
  {
    if at < |list| { assert list[at..at + 1] == [list[at]]; }
  }

  lemma HeaderStands(list: seq<Byte>, at: nat, kind: Byte, stamp: nat, rest: seq<Byte>)
    requires stamp < WORD
    ensures Stands(list, at, [kind] + Bytes4(stamp) + rest) <==>
            HeaderAt(list, at, kind, stamp) && Stands(list, at + COMMON_HEADER, rest)
  {
    StandsSplit(list, at, [kind] + Bytes4(stamp), rest);
    StandsSplit(list, at, [kind], Bytes4(stamp));
    ByteStands(list, at, kind);
    FieldStands(list, at + 1, stamp);
  }

  lemma PlainStands(list: seq<Byte>, at: nat, kind: Byte, stamp: nat, data: seq<Byte>)
    requires WellFormed(Plain(kind, stamp, data))
    ensures ActionAt(list, at, Plain(kind, stamp, data)) <==>
            HeaderAt(list, at, kind, stamp) && Stands(list, at + COMMON_HEADER, data)
  {
    HeaderStands(list, at, kind, stamp, data);
  }

  lemma RepeatedStands(list: seq<Byte>, at: nat, a: Action)
    requires a.Repeated? && WellFormed(a)
    ensures ActionAt(list, at, a) <==>
            && HeaderAt(list, at, REPEATED, a.stamp) && at + 8 <= |list|
            && list[at + 5] == |a.subs| && list[at + 6] == a.lastExecuted && list[at + 7] == a.kind
            && Stands(list, at + 8, Flatten(a.subs))
  {
    var three: seq<Byte> := [|a.subs|, a.lastExecuted, a.kind];
    var rest := Flatten(a.subs);
    assert [REPEATED] + Bytes4(a.stamp) + three + rest == [REPEATED] + Bytes4(a.stamp) + (three + rest);
    HeaderStands(list, at, REPEATED, a.stamp, three + rest);
    StandsSplit(list, at + 5, three, rest);
    if at + 8 <= |list| { assert list[at + 5..at + 8] == [list[at + 5], list[at + 6], list[at + 7]]; }
  }

  lemma {:induction false} FlattenSize(subs: seq<seq<Byte>>, n: nat)
    requires AllOfSize(subs, n)
    ensures |Flatten(subs)| == |subs| * n
  {
    if subs != [] {
      FlattenSize(subs[..|subs| - 1], n);
      OneMore(|subs| - 1, n);
    }
  }

  lemma OneMore(k: nat, n: nat)
    ensures (k + 1) * n == k * n + n
  {
  }

  /** Pieces of one size are told apart by the bytes they stand for. */
  lemma {:induction false} SameSubs(list: seq<Byte>, at: nat, x: seq<seq<Byte>>, y: seq<seq<Byte>>, n: nat)
    requires AllOfSize(x, n) && AllOfSize(y, n) && |x| == |y|
    requires Stands(list, at, Flatten(x)) && Stands(list, at, Flatten(y))
    ensures x == y
  {
    if x != [] {
      var k := |x| - 1;
      StandsSplit(list, at, Flatten(x[..k]), x[k]);
      StandsSplit(list, at, Flatten(y[..k]), y[k]);
      SameSubs(list, at, x[..k], y[..k], n);
      assert x == x[..k] + [x[k]] && y == y[..k] + [y[k]];
    }
  }

  lemma ActionIsUnique(list: seq<Byte>, at: nat, a: Action, b: Action)
    requires ActionAt(list, at, a) && ActionAt(list, at, b)
    ensures a == b
  {
    hide Encode, Stands, Field;
    HeaderOf(list, at, a);
    HeaderOf(list, at, b);
    if a.Plain? {
      PlainStands(list, at, a.kind, a.stamp, a.data);
      PlainStands(list, at, b.kind, b.stamp, b.data);
      SameSlice(list, at + COMMON_HEADER, a.data, b.data);
    } else {
      RepeatedStands(list, at, a);
      RepeatedStands(list, at, b);
      if a.subs != [] { SameSubs(list, at + 8, a.subs, b.subs, Size(a.kind)); }
    }
  }

  lemma SameSlice(list: seq<Byte>, at: nat, x: seq<Byte>, y: seq<Byte>)
    requires Stands(list, at, x) && Stands(list, at, y) && |x| == |y|
    ensures x == y
  {
  }

  function KindOf(a: Action): Byte { if a.Plain? then a.kind else REPEATED }

  lemma HeaderOf(list: seq<Byte>, at: nat, a: Action)
    requires ActionAt(list, at, a)
    ensures HeaderAt(list, at, KindOf(a), a.stamp)
  {
    if a.Plain? {
      PlainStands(list, at, a.kind, a.stamp, a.data);
    } else {
      RepeatedStands(list, at, a);
    }
  }

  // ---------------------------------------------------------------- the parser

  /** OUT_OF_BOUNDS and NESTED_REPEAT stand for lists on which the code has no defined behaviour. */
  datatype Fault = NONE | TOO_LARGE | UNKNOWN_TYPE | OUT_OF_BOUNDS | NESTED_REPEAT

  /** parse_action_data for data at `at`. */
  method ParseData(base: nat, list: seq<Byte>, at: nat, kind: Byte, timestamp: nat, index: Option<nat>)
    returns (fault: Fault, item: Item, size: nat)
    requires at <= |list|
    ensures fault != TOO_LARGE
    ensures fault == UNKNOWN_TYPE <==> kind >= ACTION_TYPES
    ensures fault == NESTED_REPEAT <==> kind == REPEATED && index.Some?
    ensures fault == NONE <==>
            kind < ACTION_TYPES && (kind == REPEATED ==> index.None?) && at + Size(kind) <= |list|
    ensures fault == NONE ==>
              size == Size(kind) && item == Item(Address(base, at), timestamp, kind, index, list[at..at + size])
  {
    item, size := Item(Address(base, at), timestamp, kind, index, []), 0;
    if kind >= ACTION_TYPES { return UNKNOWN_TYPE, item, size; }
    if kind == REPEATED && index.Some? { return NESTED_REPEAT, item, size; }
    size := Size(kind);
    if at + size > |list| { return OUT_OF_BOUNDS, item, size; }
    return NONE, item.(data := list[at..at + size]), size;
  }

  /** The sub-actions of a repeated block. */
  method ParseSubActions(base: nat, list: seq<Byte>, at: nat, kind: Byte, timestamp: nat, count: Byte)
    returns (fault: Fault, items: seq<Item>, next: nat, ghost subs: seq<seq<Byte>>)
    requires at <= |list| < OFFSETS
    ensures fault == NONE ==>
              && |subs| == count
              && (count > 0 ==> kind < ACTION_TYPES && kind != REPEATED && AllOfSize(subs, Size(kind)))
              && Stands(list, at, Flatten(subs)) && next == at + |Flatten(subs)|
              && items == SubItems(base, at, timestamp, kind, subs)
    ensures fault != TOO_LARGE
    ensures fault != NONE ==>
              count > 0 && (kind >= ACTION_TYPES || kind == REPEATED || at + Extent(count, kind) > |list|)
  {
    items, next, subs := [], at, [];
    for i := 0 to count
      invariant |subs| == i && (i > 0 ==> kind < ACTION_TYPES && kind != REPEATED && AllOfSize(subs, Size(kind)))
      invariant Stands(list, at, Flatten(subs)) && next == at + |Flatten(subs)|
      invariant items == SubItems(base, at, timestamp, kind, subs)
    {
      var item, size;
      fault, item, size := ParseData(base, list, next, kind, timestamp, Some(i));
      if fault != NONE {
        if kind < ACTION_TYPES && kind != REPEATED { CutShort(subs, at, kind, count, |list|); }
        return;
      }
      ghost var more := subs + [item.data];
      assert more[..i] == subs;
      StandsSplit(list, at, Flatten(subs), item.data);
      next := (next + size) % OFFSETS;
      items, subs := items + [item], more;
    }
    fault := NONE;
  }

  lemma CutShort(subs: seq<seq<Byte>>, at: nat, kind: nat, count: nat, end: nat)
    requires kind < ACTION_TYPES && AllOfSize(subs, Size(kind)) && |subs| < count
    requires at + |Flatten(subs)| + Size(kind) > end
    ensures at + Extent(count, kind) > end
  {
    FlattenSize(subs, Size(kind));
    OneMore(|subs|, Size(kind));
    Bits.NotLess(count, |subs| + 1, Size(kind));
  }

  ghost predicate HasAction(list: seq<Byte>, at: nat) {
    exists a :: ActionAt(list, at, a)
  }

  /** What the first bytes of an action say. */
  lemma ActionSays(list: seq<Byte>, at: nat, a: Action)
    requires ActionAt(list, at, a)
    ensures at + 5 <= |list| && list[at] < ACTION_TYPES && at + 5 + Size(list[at]) <= |list|
    ensures list[at] == REPEATED && list[at + 5] > 0 ==>
              && list[at + 7] < ACTION_TYPES && list[at + 7] != REPEATED
              && at + 8 + Extent(list[at + 5], list[at + 7]) <= |list|
  {
    HeaderOf(list, at, a);
    if a.Plain? {
      PlainStands(list, at, a.kind, a.stamp, a.data);
    } else {
      RepeatedStands(list, at, a);
      if a.subs != [] { FlattenSize(a.subs, Size(a.kind)); }
    }
  }

  /** The bytes at `at` cannot be an action. */
  lemma Refused(list: seq<Byte>, at: nat)
    requires at + 5 <= |list| && list[at] < ACTION_TYPES ==>
               || at + 5 + Size(list[at]) > |list|
               || (list[at] == REPEATED && list[at + 5] > 0
                   && (list[at + 7] >= ACTION_TYPES || list[at + 7] == REPEATED
                       || at + 8 + Extent(list[at + 5], list[at + 7]) > |list|))
    ensures !HasAction(list, at)
  {
    forall a | ActionAt(list, at, a)
      ensures false
    {
      ActionSays(list, at, a);
    }
  }

  lemma PlainItems(base: nat, at: nat, a: Action)
    requires a.Plain? && WellFormed(a)
    ensures |Encode(a)| == 5 + |a.data|
    ensures Items(base, at, a) == [Item(Address(base, at + 5), WORD - 1 - a.stamp, a.kind, None, a.data)]
  {
    hide Size, Bytes4, Address;
  }

  lemma PlainParsed(list: seq<Byte>, at: nat, a: Action)
    requires a.Plain? && WellFormed(a) && HeaderAt(list, at, a.kind, a.stamp)
    requires at + 5 + |a.data| <= |list| && list[at + 5..at + 5 + |a.data|] == a.data
    ensures HasAction(list, at) && ActionAt(list, at, a)
  {
    hide Field, Size, Encode;
    PlainStands(list, at, a.kind, a.stamp, a.data);
  }

  lemma RepeatedItems(base: nat, at: nat, a: Action, data: seq<Byte>)
    requires a.Repeated? && WellFormed(a) && data == [|a.subs|, a.lastExecuted, a.kind]
    ensures |Encode(a)| == 8 + |Flatten(a.subs)|
    ensures Items(base, at, a) ==
            [Item(Address(base, at + 5), WORD - 1 - a.stamp, REPEATED, None, data)]
            + SubItems(base, at + 8, WORD - 1 - a.stamp, a.kind, a.subs)
  {
    hide Flatten, SubItems, Size, Bytes4, Address;
  }

  lemma RepeatedParsed(list: seq<Byte>, at: nat, a: Action)
    requires a.Repeated? && WellFormed(a) && HeaderAt(list, at, REPEATED, a.stamp) && at + 8 <= |list|
    requires list[at + 5..at + 8] == [|a.subs|, a.lastExecuted, a.kind] && Stands(list, at + 8, Flatten(a.subs))
    ensures HasAction(list, at) && ActionAt(list, at, a)
  {
    hide Stands, Field, Flatten, Size, Bytes4, Encode;
    var three := list[at + 5..at + 8];
    assert three[0] == list[at + 5] && three[1] == list[at + 6] && three[2] == list[at + 7];
    RepeatedStands(list, at, a);
  }

  /** parse_single_action: the common header and the data behind it. */
  method ParseSingle(base: nat, list: seq<Byte>, at: nat) returns (fault: Fault, item: Item, length: nat, stamp: nat)
    requires at < |list|
    ensures fault != TOO_LARGE
    ensures fault == NONE <==>
            at + 5 <= |list| && list[at] < ACTION_TYPES && at + 5 + Size(list[at]) <= |list|
    ensures fault == NONE ==>
              && length == 5 + Size(list[at]) && stamp == Field(list, at + 1)
              && item == Item(Address(base, at + 5), TIMESTAMP_INIT - stamp, list[at], None, list[at + 5..at + length])
  {
    hide Field, Size, Address;
    item, length, stamp := Item(0, 0, 0, None, []), 0, 0;
    if at + COMMON_HEADER > |list| { return OUT_OF_BOUNDS, item, length, stamp; }
    stamp := Field(list, at + 1);
    var size;
    fault, item, size := ParseData(base, list, at + COMMON_HEADER, list[at], TIMESTAMP_INIT - stamp, None);
    length := COMMON_HEADER + size;
  }

  /** One action with its sub-actions: the body of the loop. */
  method ParseAction(base: nat, list: seq<Byte>, at: nat)
    returns (fault: Fault, items: seq<Item>, next: nat, ghost action: Action)
    requires at < |list| < OFFSETS
    ensures fault != TOO_LARGE && (fault == NONE <==> HasAction(list, at))
    ensures fault == NONE ==>
              ActionAt(list, at, action) && next == at + |Encode(action)| && items == Items(base, at, action)
  {
    hide Field, Size, ActionAt, HasAction, Items, SubItems, Stands, Flatten, Address, Extent, Encode;
    items, next, action := [], at, Plain(0, 0, []);
    var item, length, stamp;
    fault, item, length, stamp := ParseSingle(base, list, at);
    if fault != NONE {
      Refused(list, at);
      return;
    }
    next := (at + length) % OFFSETS;
    items := [item];
    if item.kind != REPEATED {
      action := Plain(item.kind, stamp, item.data);
      PlainParsed(list, at, action);
      PlainItems(base, at, action);
    } else {
      var count, last, kind := item.data[0], item.data[1], item.data[2];
      assert [count, last, kind] == item.data;
      var more;
      ghost var subs;
      fault, more, next, subs := ParseSubActions(base, list, next, kind, item.timestamp, count);
      if fault != NONE {
        assert count == list[at + 5] && kind == list[at + 7];
        Refused(list, at);
        return;
      }
      items := items + more;
      action := Repeated(stamp, last, kind, subs);
      RepeatedParsed(list, at, action);
      RepeatedItems(base, at, action, item.data);
    }
  }

  // ---------------------------------------------------------------- whole lists

  predicate Spells(list: seq<Byte>, actions: seq<Action>) {
    AllWellFormed(actions) && list == EncodeAll(actions)
  }

  lemma {:induction false} PrefixStands(list: seq<Byte>, actions: seq<Action>, k: nat)
    requires AllWellFormed(actions) && Stands(list, 0, EncodeAll(actions)) && k < |actions|
    ensures ActionAt(list, |EncodeAll(actions[..k])|, actions[k])
  {
    hide Encode, Stands, WellFormed;
    var n := |actions| - 1;
    StandsSplit(list, 0, EncodeAll(actions[..n]), Encode(actions[n]));
    if k < n {
      assert actions[..n][..k] == actions[..k];
      PrefixStands(list, actions[..n], k);
    }
  }

  /** After a common start, every reading goes on with the same action. */
  lemma SameNext(list: seq<Byte>, actions: seq<Action>, seen: seq<Action>, n: nat)
    requires Spells(list, actions) && AllWellFormed(seen) && Stands(list, 0, EncodeAll(seen))
    requires n < |seen| && n <= |actions| && actions[..n] == seen[..n]
    ensures n < |actions| && actions[n] == seen[n]
  {
    hide Encode, Stands, EncodeAll, WellFormed, ActionAt;
    PrefixStands(list, seen, n);
    HeaderOf(list, |EncodeAll(seen[..n])|, seen[n]);
    assert actions[..|actions|] == actions;
    WholeStands(list);
    PrefixStands(list, actions, n);
    ActionIsUnique(list, |EncodeAll(seen[..n])|, actions[n], seen[n]);
  }

  /** The actions at the start of a list are those of every reading of it. */
  lemma {:induction false} Agree(list: seq<Byte>, actions: seq<Action>, seen: seq<Action>, k: nat)
    requires Spells(list, actions) && AllWellFormed(seen) && Stands(list, 0, EncodeAll(seen)) && k <= |seen|
    ensures k <= |actions| && actions[..k] == seen[..k]
  {
    hide Spells, Stands, EncodeAll, AllWellFormed;
    if k > 0 {
      Agree(list, actions, seen, k - 1);
      SameNext(list, actions, seen, k - 1);
    }
  }

  lemma WholeStands(list: seq<Byte>)
    ensures Stands(list, 0, list)
  {
  }

  /** A list spells at most one sequence of actions. */
  lemma SpellingIsUnique(list: seq<Byte>, x: seq<Action>, y: seq<Action>)
    requires Spells(list, x) && Spells(list, y)
    ensures x == y
  {
    WholeStands(list);
    Agree(list, x, y, |y|);
    Agree(list, y, x, |x|);
    assert x[..|x|] == x && y[..|y|] == y;
  }

  /** What comes after the actions seen is an action again, if the list spells any actions at all. */
  lemma NextStands(list: seq<Byte>, actions: seq<Action>, seen: seq<Action>)
    requires Spells(list, actions) && AllWellFormed(seen) && Stands(list, 0, EncodeAll(seen))
    requires |EncodeAll(seen)| < |list|
    ensures HasAction(list, |EncodeAll(seen)|)
  {
    hide EncodeAll, Stands;
    var n := |seen|;
    Agree(list, actions, seen, n);
    assert seen[..n] == seen && actions[..|actions|] == actions;
    WholeStands(list);
    PrefixStands(list, actions, n);
  }

  ghost predicate IsActionList(list: seq<Byte>) {
    exists actions :: Spells(list, actions)
  }

  /** The parser accepts exactly the lists of well-formed actions that fit, and reports exactly their entries. */
  method Parse(base: nat, list: seq<Byte>) returns (fault: Fault, items: seq<Item>)
    ensures fault == TOO_LARGE <==> |list| >= OFFSETS
    ensures fault == NONE <==> |list| < OFFSETS && IsActionList(list)
    ensures fault == NONE ==> forall actions :: Spells(list, actions) ==> items == AllItems(base, actions)
  {
    hide EncodeAll, Encode, ActionAt, HasAction;
    items := [];
    if |list| >= OFFSETS { return TOO_LARGE, items; }
    var offset := 0;
    ghost var seen: seq<Action> := [];
    NothingSeen(base, list);
    while offset < |list|
      invariant 0 <= offset <= |list| && AllWellFormed(seen)
      invariant Stands(list, 0, EncodeAll(seen)) && offset == |EncodeAll(seen)| && items == AllItems(base, seen)
      decreases |list| - offset
    {
      var more, next;
      ghost var action;
      fault, more, next, action := ParseAction(base, list, offset);
      if fault != NONE {
        forall actions | Spells(list, actions)
          ensures false
        {
          NextStands(list, actions, seen);
        }
        return;
      }
      OneMoreSeen(base, list, seen, action);
      offset := next;
      items, seen := items + more, seen + [action];
    }
    assert offset == |list|;  // the check after the loop never fails
    assert Spells(list, seen);
    forall actions | Spells(list, actions)
      ensures actions == seen
    {
      SpellingIsUnique(list, actions, seen);
    }
    fault := NONE;
  }

  lemma NothingSeen(base: nat, list: seq<Byte>)
    ensures EncodeAll([]) == [] && AllItems(base, []) == [] && Stands(list, 0, [])
  {
  }

  lemma OneMoreSeen(base: nat, list: seq<Byte>, seen: seq<Action>, action: Action)
    requires AllWellFormed(seen) && Stands(list, 0, EncodeAll(seen)) && ActionAt(list, |EncodeAll(seen)|, action)
    ensures AllWellFormed(seen + [action]) && Stands(list, 0, EncodeAll(seen + [action]))
    ensures |EncodeAll(seen + [action])| == |EncodeAll(seen)| + |Encode(action)|
    ensures |Encode(action)| > 0 && |EncodeAll(seen)| + |Encode(action)| <= |list|
    ensures AllItems(base, seen + [action]) == AllItems(base, seen) + Items(base, |EncodeAll(seen)|, action)
  {
    hide Encode, Items;
    assert (seen + [action])[..|seen|] == seen;
    StandsSplit(list, 0, EncodeAll(seen), Encode(action));
  }
}
