/** fish/blink.S and fish/fish.c: a linked list of blinking characters inside a fixed pool, and its timer. */
module Blink {
  import opened Bytes

  type Word = x: int | 0 <= x < 0x1_0000

  const CELLS := 80 * 25
  const NULL := -1

  /** What a blink structure says, apart from its place in the list. */
  datatype Entry = Entry(location: Word, onChar: byte, offChar: byte, onLength: Word, offLength: Word,
    countdown: Word, on: bool)

  /** A pool slot; `next` is a slot number or NULL.  A slot whose location is 0 counts as free. */
  datatype Node = Node(entry: Entry, next: int)

  const ZERO := Node(Entry(0, 0, 0, 0, 0, 0, false), NULL)

  // ---------------------------------------------------------------- the abstract list

  /** What the caller of an add asks for: its countdown and status are ignored. */
  function Started(request: Entry): Entry {
    request.(on := true, countdown := request.onLength)
  }

  /** One timer tick: a 16-bit decrement, and a signed test. */
  function Tick(e: Entry): (r: Entry)
    ensures r == e.(countdown := r.countdown, on := r.on)
  {
    var c: Word := (e.countdown + 0xFFFF) % 0x1_0000;
    if 0 < c < 0x8000 then e.(countdown := c)
    else e.(countdown := if e.on then e.offLength else e.onLength, on := !e.on)
  }

  function TickAll(list: seq<Entry>): (r: seq<Entry>)
    ensures |r| == |list|
  {
    seq(|list|, i requires 0 <= i < |list| => Tick(list[i]))
  }

  /** Position of the newest entry at a location; the length when there is none. */
  function Newest(list: seq<Entry>, location: Word): (k: nat)
    ensures k <= |list| && (k < |list| ==> list[k].location == location)
    ensures forall j :: 0 <= j < k ==> list[j].location != location
  {
    if list == [] || list[0].location == location then 0 else 1 + Newest(list[1..], location)
  }

  function Added(list: seq<Entry>, request: Entry): (seq<Entry>, int) {
    if request.location >= CELLS || |list| == CELLS then (list, -1) else ([Started(request)] + list, 0)
  }

  function Removed(list: seq<Entry>, location: Word): (seq<Entry>, int) {
    var k := Newest(list, location);
    if k == |list| then (list, -1) else (list[..k] + list[k + 1..], 0)
  }

  function CopyTiming(from: Entry, to: Entry): Entry {
    to.(onLength := from.onLength, offLength := from.offLength, countdown := from.countdown, on := from.on)
  }

  function Synced(list: seq<Entry>, first: Word, second: Word): (seq<Entry>, int) {
    var i, j := Newest(list, first), Newest(list, second);
    if i == |list| || j == |list| then (list, -1) else (list[j := CopyTiming(list[i], list[j])], 0)
  }

  // ---------------------------------------------------------------- the list in the pool

  function Link(order: seq<int>, i: nat): int {
    if i < |order| then order[i] else NULL
  }

  predicate InPool(order: seq<int>) {
    && (forall i :: 0 <= i < |order| ==> 0 <= order[i] < CELLS)
    && (forall i, j :: 0 <= i < j < |order| ==> order[i] != order[j])
  }

  predicate Linked(pool: seq<Node>, head: int, order: seq<int>)
    requires |pool| == CELLS && InPool(order)
  {
    && head == Link(order, 0)
    && (forall i :: 0 <= i < |order| ==> pool[order[i]].next == Link(order, i + 1))
  }

  /** The slots on the list are exactly the slots in use. */
  predicate Exact(pool: seq<Node>, order: seq<int>)
    requires |pool| == CELLS
  {
    forall k :: 0 <= k < CELLS ==> (k in order <==> pool[k].entry.location != 0)
  }

  predicate Represents(pool: seq<Node>, head: int, order: seq<int>) {
    |pool| == CELLS && InPool(order) && Linked(pool, head, order) && Exact(pool, order)
  }

  function Entries(pool: seq<Node>, order: seq<int>): (r: seq<Entry>)
    requires |pool| == CELLS && InPool(order)
    ensures |r| == |order|
  {
    seq(|order|, i requires 0 <= i < |order| => pool[order[i]].entry)
  }

  function Slots(n: nat): (s: set<int>)
    ensures |s| == n && forall k :: k in s <==> 0 <= k < n
  {
    if n == 0 then {} else Slots(n - 1) + {n - 1}
  }

  function Members(order: seq<int>): set<int> {
    set k | k in order
  }

  lemma {:induction false} DistinctSize(order: seq<int>)
    requires InPool(order)
    ensures |Members(order)| == |order|
  {
    if order != [] {
      var front, last := order[..|order| - 1], order[|order| - 1];
      DistinctSize(front);
      assert Members(order) == Members(front) + {last};
    }
  }

  lemma Subset(a: set<int>, b: set<int>)
    requires a <= b
    ensures |a| <= |b| && (|a| == |b| ==> a == b)
  {
    assert b == a + (b - a);
    assert |b| == |a| + |b - a|;
    if |a| == |b| {
      assert b - a == {};
    }
  }

  predicate AllUsed(pool: seq<Node>) {
    forall k :: 0 <= k < |pool| ==> pool[k].entry.location != 0
  }

  /** The list is at most as long as the pool, and as long only when no slot is free. */
  lemma FullIff(pool: seq<Node>, order: seq<int>)
    requires |pool| == CELLS && InPool(order) && Exact(pool, order)
    ensures |order| <= CELLS
    ensures |order| == CELLS <==> AllUsed(pool)
  {
    FullSet(order);
    hide Slots, InPool;
    if AllUsed(pool) {
      InUse(pool, order);
    } else {
      var k :| 0 <= k < |pool| && pool[k].entry.location == 0;
      assert k in Slots(CELLS) && k !in Members(order);
    }
  }

  lemma InUse(pool: seq<Node>, order: seq<int>)
    requires |pool| == CELLS && InPool(order) && Exact(pool, order) && AllUsed(pool)
    ensures Members(order) == Slots(CELLS)
  {
    MembersInPool(order);
    hide InPool, Slots;
  }

  lemma FullSet(order: seq<int>)
    requires InPool(order)
    ensures |order| <= CELLS && Members(order) <= Slots(CELLS)
    ensures |order| == CELLS <==> Members(order) == Slots(CELLS)
  {
    DistinctSize(order);
    MembersInPool(order);
    hide Slots, InPool, Members;
    Subset(Members(order), Slots(CELLS));
  }

  lemma MembersInPool(order: seq<int>)
    requires InPool(order)
    ensures Members(order) <= Slots(CELLS)
  {
    hide Slots;
  }

  // ---------------------------------------------------------------- pool updates

  /** Timing and status may change in place without disturbing the links. */
  lemma EntryUpdate(pool: seq<Node>, head: int, order: seq<int>, i: nat, e: Entry)
    requires Represents(pool, head, order) && i < |order|
    requires e.location == pool[order[i]].entry.location
    ensures var after := pool[order[i] := pool[order[i]].(entry := e)];
            Represents(after, head, order) && Entries(after, order) == Entries(pool, order)[i := e]
  {
  }

  lemma PushRepresents(pool: seq<Node>, head: int, order: seq<int>, k: int, e: Entry)
    requires Represents(pool, head, order) && 0 <= k < CELLS && pool[k].entry.location == 0 && e.location != 0
    ensures var after := pool[k := Node(e, head)];
            Represents(after, k, [k] + order) && Entries(after, [k] + order) == [e] + Entries(pool, order)
  {
    var after, longer := pool[k := Node(e, head)], [k] + order;
    PushOrder(order, k);
    PushEntries(pool, order, k, Node(e, head));
    PushLinks(pool, head, order, k, e);
    hide InPool, Linked;
  }

  lemma PushOrder(order: seq<int>, k: int)
    requires InPool(order) && 0 <= k < CELLS && k !in order
    ensures InPool([k] + order)
    ensures forall j :: j in [k] + order <==> j == k || j in order
  {
  }

  lemma PushLinks(pool: seq<Node>, head: int, order: seq<int>, k: int, e: Entry)
    requires |pool| == CELLS && InPool(order) && Linked(pool, head, order)
    requires 0 <= k < CELLS && InPool([k] + order)
    ensures Linked(pool[k := Node(e, head)], k, [k] + order)
  {
    var after, longer := pool[k := Node(e, head)], [k] + order;
    forall i | 0 <= i < |longer| ensures after[longer[i]].next == Link(longer, i + 1) {
      if i > 0 {
        assert longer[i] == order[i - 1] != longer[0];
        assert pool[order[i - 1]].next == Link(order, i);
      }
    }
  }

  lemma PushEntries(pool: seq<Node>, order: seq<int>, k: int, n: Node)
    requires |pool| == CELLS && InPool(order) && InPool([k] + order) && 0 <= k < CELLS
    ensures Entries(pool[k := n], [k] + order) == [n.entry] + Entries(pool, order)
  {
    var longer, after := [k] + order, pool[k := n];
    forall i | 0 <= i < |longer| ensures after[longer[i]].entry == ([n.entry] + Entries(pool, order))[i] {
      if i > 0 {
        assert longer[i] == order[i - 1] != longer[0];
      }
    }
  }

  /** Unlinking entry `i`: its predecessor, or the head, is made to point past it. */
  function Unlinked(pool: seq<Node>, order: seq<int>, i: nat): seq<Node>
    requires |pool| == CELLS && InPool(order) && i < |order|
  {
    var p := order[i];
    (if i == 0 then pool else pool[order[i - 1] := pool[order[i - 1]].(next := pool[p].next)])[p := ZERO]
  }

  function Without<T>(s: seq<T>, i: nat): seq<T>
    requires i < |s|
  {
    s[..i] + s[i + 1..]
  }

  lemma WithoutAt(order: seq<int>, i: nat)
    requires InPool(order) && i < |order|
    ensures InPool(Without(order, i)) && order[i] !in Without(order, i)
    ensures forall j :: 0 <= j < |order| - 1 ==> Without(order, i)[j] == order[if j < i then j else j + 1]
    ensures forall k :: k != order[i] ==> (k in order <==> k in Without(order, i))
  {
    var shorter := Without(order, i);
    forall k | k in order && k != order[i] ensures k in shorter {
      var j :| 0 <= j < |order| && order[j] == k;
      assert shorter[if j < i then j else j - 1] == k;
    }
  }

  lemma UnlinkRepresents(pool: seq<Node>, head: int, order: seq<int>, i: nat)
    requires Represents(pool, head, order) && i < |order|
    ensures InPool(Without(order, i))
    ensures Represents(Unlinked(pool, order, i), if i == 0 then pool[head].next else head, Without(order, i))
    ensures Entries(Unlinked(pool, order, i), Without(order, i)) == Without(Entries(pool, order), i)
  {
    var after, shorter := Unlinked(pool, order, i), Without(order, i);
    WithoutAt(order, i);
    UnlinkSlots(pool, order, i);
    hide Unlinked, Without;
    assert Exact(after, shorter);
    UnlinkLinks(pool, head, order, i);
    UnlinkEntries(pool, order, i);
  }

  lemma UnlinkSlots(pool: seq<Node>, order: seq<int>, i: nat)
    requires |pool| == CELLS && InPool(order) && i < |order|
    ensures |Unlinked(pool, order, i)| == CELLS
    ensures forall k :: 0 <= k < CELLS ==>
              Unlinked(pool, order, i)[k].entry == if k == order[i] then ZERO.entry else pool[k].entry
    ensures forall j :: 0 <= j < |order| && j != i ==>
              Unlinked(pool, order, i)[order[j]].next == if j + 1 == i then pool[order[i]].next else pool[order[j]].next
  {
  }

  lemma UnlinkLinks(pool: seq<Node>, head: int, order: seq<int>, i: nat)
    requires Represents(pool, head, order) && i < |order|
    ensures InPool(Without(order, i))
    ensures |Unlinked(pool, order, i)| == CELLS
    ensures Linked(Unlinked(pool, order, i), if i == 0 then pool[head].next else head, Without(order, i))
  {
    var after, shorter := Unlinked(pool, order, i), Without(order, i);
    WithoutAt(order, i);
    UnlinkSlots(pool, order, i);
    assert |shorter| == |order| - 1;
    LinkAt(pool, head, order, i);
    hide Unlinked, Without, Exact, InPool, Represents, Linked;
    forall j | 0 <= j < |shorter| ensures after[shorter[j]].next == Link(shorter, j + 1) {
      LinkAt(pool, head, order, if j < i then j else j + 1);
    }
    assert (if i == 0 then pool[head].next else head) == Link(shorter, 0);
    LinksSuffice(after, if i == 0 then pool[head].next else head, shorter);
  }

  lemma LinkAt(pool: seq<Node>, head: int, order: seq<int>, i: nat)
    requires Represents(pool, head, order) && i < |order|
    ensures 0 <= order[i] < |pool| == CELLS && pool[order[i]].next == Link(order, i + 1) && head == order[0]
    ensures Entries(pool, order)[i] == pool[order[i]].entry
  {
  }

  lemma LinksSuffice(pool: seq<Node>, head: int, order: seq<int>)
    requires |pool| == CELLS && InPool(order) && head == Link(order, 0)
    requires forall i :: 0 <= i < |order| ==> pool[order[i]].next == Link(order, i + 1)
    ensures Linked(pool, head, order)
  {
  }

  lemma UnlinkEntries(pool: seq<Node>, order: seq<int>, i: nat)
    requires |pool| == CELLS && InPool(order) && i < |order|
    ensures InPool(Without(order, i)) && |Unlinked(pool, order, i)| == CELLS
    ensures Entries(Unlinked(pool, order, i), Without(order, i)) == Without(Entries(pool, order), i)
  {
    WithoutAt(order, i);
    UnlinkSlots(pool, order, i);
    hide Unlinked;
  }

  // ---------------------------------------------------------------- the code

  class BlinkList {
    const pool: array<Node>
    var head: int
    ghost var order: seq<int>

    ghost predicate Valid()
      reads this, pool
    {
      pool.Length == CELLS && Represents(pool[..], head, order)
    }

    ghost function Contents(): seq<Entry>
      requires Valid()
      reads this, pool
    {
      Entries(pool[..], order)
    }

    constructor ()
      ensures Valid() && fresh(pool) && Contents() == []
    {
      pool := new Node[CELLS](_ => ZERO);
      head := NULL;
      order := [];
    }

    /** mp1_find_helper: the slot of the newest entry at a location, or NULL. */
    method FindHelper(location: Word) returns (p: int)
      requires Valid()
      ensures p == Link(order, Newest(Contents(), location))
    {
      ghost var list := Contents();
      ghost var i := 0;
      p := head;
      while p != NULL
        invariant 0 <= i <= |order| && p == Link(order, i)
        invariant forall j :: 0 <= j < i ==> list[j].location != location
        decreases |order| - i
      {
        if pool[p].entry.location == location {
          break;
        }
        p := pool[p].next;
        i := i + 1;
      }
      NewestIs(list, location, i);
    }

    /** mp1_ioctl_find. */
    method Find(location: Word) returns (r: Option<Entry>)
      requires Valid()
      ensures var list := Contents();
              r == if Newest(list, location) == |list| then None else Some(list[Newest(list, location)])
    {
      var p := FindHelper(location);
      if p == NULL {
        return None;
      }
      return Some(pool[p].entry);
    }

    /** mp1_malloc: the first slot whose location is 0, or NULL. */
    method Malloc() returns (k: int)
      requires Valid()
      ensures k == FirstFree(pool[..])
    {
      hide FirstFree, Represents;
      k := 0;
      while k < pool.Length
        invariant 0 <= k <= pool.Length
        invariant forall j :: 0 <= j < k ==> pool[j].entry.location != 0
      {
        if pool[k].entry.location == 0 {
          FreeIs(pool[..], k);
          return;
        }
        k := k + 1;
      }
      k := NULL;
      NoneFree(pool[..]);
    }

    /** mp1_ioctl_add.  An add at location 0 that succeeds leaves a pool in which no list is represented. */
    method Add(request: Entry) returns (r: int)
      requires Valid()
      modifies this, pool
      ensures (pool[..], head, r) == AddTo(old(pool[..]), old(head), request)
      ensures r == Added(old(Contents()), request).1
      ensures Valid() <==> r == -1 || request.location != 0
      ensures Valid() ==> Contents() == Added(old(Contents()), request).0
    {
      AddOutcome(pool[..], head, order, request);
      if request.location >= CELLS {
        return -1;
      }
      var k := Malloc();
      if k == NULL {
        return -1;
      }
      pool[k] := Node(Started(request), head);
      order := [k] + order;
      head := k;
      return 0;
    }

    /** mp1_ioctl_remove: find, walk to the predecessor, unlink, free. */
    method Remove(location: Word) returns (r: int)
      requires Valid()
      modifies this, pool
      ensures Valid() && (Contents(), r) == Removed(old(Contents()), location)
    {
      var p := FindHelper(location);
      if p == NULL {
        return -1;
      }
      ghost var i := Newest(Contents(), location);
      var prev := FindPrevious(p, i);
      UnlinkRepresents(pool[..], head, order, i);
      RemovedIs(Contents(), location);
      ghost var after := Unlinked(pool[..], order, i);
      var next := pool[p].next;
      if prev == NULL {
        head := next;
      } else {
        pool[prev] := pool[prev].(next := next);
      }
      pool[p] := ZERO;
      assert pool[..] == after;
      order := Without(order, i);
      hide Represents, Entries, Unlinked, Without, Removed, InPool;
      return 0;
    }

    /** remove_find_prev: the slot whose link is `p`, or NULL for the head of the list. */
    method FindPrevious(p: int, ghost i: nat) returns (prev: int)
      requires Valid() && i < |order| && p == order[i]
      ensures prev == if i == 0 then NULL else order[i - 1]
    {
      prev := NULL;
      ghost var j := 0;
      var cell := head;
      while cell != p
        invariant 0 <= j <= i && cell == order[j]
        invariant prev == if j == 0 then NULL else order[j - 1]
        decreases i - j
      {
        prev := cell;
        cell := pool[prev].next;
        j := j + 1;
      }
    }

    /** mp1_ioctl_sync: the high half of the argument names the source, the low half the target. */
    method Sync(argument: int) returns (r: int)
      requires Valid() && 0 <= argument < 0x1_0000_0000
      modifies pool
      ensures Valid() && (Contents(), r) == Synced(old(Contents()), argument / 0x1_0000, argument % 0x1_0000)
    {
      hide Newest;
      var from := FindHelper(argument / 0x1_0000);
      if from == NULL {
        return -1;
      }
      var to := FindHelper(argument % 0x1_0000);
      if to == NULL {
        return -1;
      }
      ghost var j := Newest(Contents(), argument % 0x1_0000);
      var e := CopyTiming(pool[from].entry, pool[to].entry);
      EntryUpdate(pool[..], head, order, j, e);
      ghost var after := pool[..][to := pool[to].(entry := e)];
      pool[to] := pool[to].(entry := e);
      assert pool[..] == after;
      return 0;
    }

    /** Stores new timing in a slot of the list. */
    method SetTiming(p: int, e: Entry, ghost i: nat)
      requires Valid() && i < |order| && p == order[i] && e.location == pool[p].entry.location
      modifies pool
      ensures Valid() && Contents() == old(Contents())[i := e]
      ensures pool[p].next == old(pool[p].next)
    {
      EntryUpdate(pool[..], head, order, i, e);
      ghost var after := pool[..][p := pool[p].(entry := e)];
      pool[p] := pool[p].(entry := e);
      assert pool[..] == after;
    }

    /** mp1_rtc_tasklet: one pass over the list. */
    method Tasklet()
      requires Valid()
      modifies pool
      ensures Valid() && Contents() == TickAll(old(Contents()))
    {
      hide Represents, Entries, InPool, Tick, TickAll, PartlyTicked;
      ghost var list := Contents();
      ghost var i := 0;
      var cur := head;
      HeadLink(pool[..], head, order);
      PartlyTickedStart(list);
      while cur != NULL
        invariant Valid() && 0 <= i <= |order| && cur == Link(order, i)
        invariant Contents() == PartlyTicked(list, i)
        decreases |order| - i
      {
        LinkAt(pool[..], head, order, i);
        PartlyTickedStep(list, i);
        var e := TickEntry(pool[cur].entry);
        SetTiming(cur, e, i);
        cur := pool[cur].next;
        i := i + 1;
      }
      LinkEnd(pool[..], head, order, i);
      PartlyTickedEnd(list);
    }

    /** One command, carried out by its routine. */
    method Do(c: Command) returns (r: int)
      requires Valid() && Sound(c)
      modifies this, pool
      ensures Valid() && (Contents(), r) == Apply(old(Contents()), c)
    {
      hide Represents, Entries, Added, Removed, Synced, TickAll, AddTo;
      match c
      case DoAdd(request) => r := Add(request); AddedResult(old(Contents()), request);
      case DoRemove(location) => r := Remove(location);
      case DoSync(argument) => r := Sync(argument);
      case DoTick => Tasklet(); r := 0;
    }

    /** Any run of commands, with no add at location 0, refines the abstract list. */
    method Run(commands: seq<Command>) returns (results: seq<int>)
      requires Valid() && forall i :: 0 <= i < |commands| ==> Sound(commands[i])
      modifies this, pool
      ensures Valid() && (Contents(), results) == RunAll(old(Contents()), commands)
    {
      results := [];
      ghost var list := Contents();
      hide Represents, Entries, Apply, RunAll;
      EmptyRun(list);
      assert commands[..0] == [];
      for i := 0 to |commands|
        invariant Valid() && (Contents(), results) == RunAll(list, commands[..i])
      {
        RunOneMore(list, commands, i);
        var r := Do(commands[i]);
        results := results + [r];
      }
      assert commands[..|commands|] == commands;
    }
  }

  function PartlyTicked(list: seq<Entry>, i: nat): (r: seq<Entry>)
    requires i <= |list|
    ensures |r| == |list|
  {
    TickAll(list)[..i] + list[i..]
  }

  lemma PartlyTickedStart(list: seq<Entry>)
    ensures PartlyTicked(list, 0) == list
  {
  }

  lemma PartlyTickedEnd(list: seq<Entry>)
    ensures PartlyTicked(list, |list|) == TickAll(list)
  {
  }

  lemma PartlyTickedStep(list: seq<Entry>, i: nat)
    requires i < |list|
    ensures PartlyTicked(list, i)[i] == list[i]
    ensures PartlyTicked(list, i)[i := Tick(list[i])] == PartlyTicked(list, i + 1)
  {
    hide Tick;
  }

  /** The loop body of mp1_rtc_tasklet: a 16-bit decrement, then the signed test. */
  method TickEntry(e: Entry) returns (r: Entry)
    ensures r == Tick(e)
  {
    r := e.(countdown := if e.countdown == 0 then 0xFFFF else e.countdown - 1);
    if !(0 < r.countdown < 0x8000) {
      r := if r.on then r.(countdown := r.offLength, on := false) else r.(countdown := r.onLength, on := true);
    }
  }

  lemma HeadLink(pool: seq<Node>, head: int, order: seq<int>)
    requires Represents(pool, head, order)
    ensures head == Link(order, 0)
  {
  }

  lemma LinkEnd(pool: seq<Node>, head: int, order: seq<int>, i: nat)
    requires Represents(pool, head, order) && i <= |order| && Link(order, i) == NULL
    ensures i == |order| == |Entries(pool, order)|
  {
  }

  lemma AddedResult(list: seq<Entry>, request: Entry)
    ensures Added(list, request).1 in {0, -1}
  {
  }

  datatype Command = DoAdd(request: Entry) | DoRemove(location: Word) | DoSync(argument: int) | DoTick

  predicate Sound(c: Command) {
    match c
    case DoAdd(request) => request.location != 0
    case DoSync(argument) => 0 <= argument < 0x1_0000_0000
    case _ => true
  }

  function Apply(list: seq<Entry>, c: Command): (seq<Entry>, int)
    requires Sound(c)
  {
    match c
    case DoAdd(request) => Added(list, request)
    case DoRemove(location) => Removed(list, location)
    case DoSync(argument) => Synced(list, argument / 0x1_0000, argument % 0x1_0000)
    case DoTick => (TickAll(list), 0)
  }

  function RunAll(list: seq<Entry>, commands: seq<Command>): (seq<Entry>, seq<int>)
    requires forall i :: 0 <= i < |commands| ==> Sound(commands[i])
  {
    if commands == [] then (list, [])
    else
      var last := |commands| - 1;
      var (before, results) := RunAll(list, commands[..last]);
      var (after, r) := Apply(before, commands[last]);
      (after, results + [r])
  }

  lemma EmptyRun(list: seq<Entry>)
    ensures RunAll(list, []) == (list, [])
  {
  }

  lemma RunOneMore(list: seq<Entry>, commands: seq<Command>, i: nat)
    requires i < |commands| && forall j :: 0 <= j < |commands| ==> Sound(commands[j])
    ensures var (before, results) := RunAll(list, commands[..i]);
            var (after, r) := Apply(before, commands[i]);
            RunAll(list, commands[..i + 1]) == (after, results + [r])
  {
    hide Apply;
    var longer := commands[..i + 1];
    assert longer[..i] == commands[..i] && longer[i] == commands[i];
  }

  lemma RemovedIs(list: seq<Entry>, location: Word)
    requires Newest(list, location) < |list|
    ensures Removed(list, location) == (Without(list, Newest(list, location)), 0)
  {
  }

  function FirstFree(pool: seq<Node>): (k: int)
    ensures k == NULL || (0 <= k < |pool| && pool[k].entry.location == 0)
  {
    if pool == [] then NULL
    else if pool[0].entry.location == 0 then 0
    else var k := FirstFree(pool[1..]); if k == NULL then NULL else k + 1
  }

  lemma {:induction false} FreeIs(pool: seq<Node>, k: nat)
    requires k < |pool| && pool[k].entry.location == 0
    requires forall j :: 0 <= j < k ==> pool[j].entry.location != 0
    ensures FirstFree(pool) == k
    decreases k
  {
    if k > 0 {
      FreeIs(pool[1..], k - 1);
    }
  }

  lemma {:induction false} NoneFree(pool: seq<Node>)
    ensures FirstFree(pool) == NULL <==> AllUsed(pool)
  {
    if pool != [] {
      NoneFree(pool[1..]);
      if FirstFree(pool) == NULL {
        forall j | 0 <= j < |pool| ensures pool[j].entry.location != 0 {
          if j > 0 {
            assert pool[j] == pool[1..][j - 1];
          }
        }
      }
    }
  }

  /** What an add does to the pool and the head. */
  function AddTo(pool: seq<Node>, head: int, request: Entry): (seq<Node>, int, int) {
    var k := FirstFree(pool);
    if request.location >= CELLS || k == NULL then (pool, head, -1)
    else (pool[k := Node(Started(request), head)], k, 0)
  }

  ghost predicate Represented(pool: seq<Node>, head: int) {
    exists order :: Represents(pool, head, order)
  }

  /** An add pushes at the front, and fails iff the location is off the screen or the pool is full; the pool
      still represents a list iff the add failed or the location is not 0. */
  lemma AddOutcome(pool: seq<Node>, head: int, order: seq<int>, request: Entry)
    requires Represents(pool, head, order)
    ensures var (after, top, r) := AddTo(pool, head, request);
            var (list, q) := Added(Entries(pool, order), request);
            && r == q
            && (Represented(after, top) <==> r == -1 || request.location != 0)
            && (r == 0 && request.location != 0 ==>
               Represents(after, top, [top] + order) && Entries(after, [top] + order) == list)
            && (r == -1 ==> list == Entries(pool, order))
  {
    FullIff(pool, order);
    NoneFree(pool);
    hide Represents, Entries, InPool, AllUsed;
    var k := FirstFree(pool);
    if request.location < CELLS && k != NULL {
      if request.location != 0 {
        PushRepresents(pool, head, order, k, Started(request));
      } else {
        HeadInUse(pool[k := Node(Started(request), head)], k);
      }
    }
  }

  lemma HeadInUse(pool: seq<Node>, head: int)
    requires 0 <= head < |pool| && pool[head].entry.location == 0
    ensures !Represented(pool, head)
  {
    forall order | Represents(pool, head, order) ensures false {
      HeadUsed(pool, head, order);
    }
  }

  lemma HeadUsed(pool: seq<Node>, head: int, order: seq<int>)
    requires 0 <= head && Represents(pool, head, order)
    ensures head < CELLS && pool[head].entry.location != 0
  {
    assert order[0] in order;
  }

  lemma NewestIs(list: seq<Entry>, location: Word, k: nat)
    requires k <= |list| && (k < |list| ==> list[k].location == location)
    requires forall j :: 0 <= j < k ==> list[j].location != location
    ensures Newest(list, location) == k
  {
  }
}
