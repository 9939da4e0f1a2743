/** What the blink list promises over time: phases in closed form, lasting synchronisation, last in first found. */
module BlinkLaws {
  import opened Bytes
  import opened Blink

  function Ticks(e: Entry, n: nat): Entry {
    if n == 0 then e else Tick(Ticks(e, n - 1))
  }

  /** How long a length of `a` really lasts: the signed test ends lengths 0 and above 32768 at once. */
  function Lasts(a: Word): (n: nat)
    ensures n > 0
  {
    if 1 <= a <= 0x8000 then a else 1
  }

  /** The entry at one point of its period, told from the two lengths alone. */
  function AtPhase(e: Entry, phase: nat): Entry
    requires phase < Lasts(e.onLength) + Lasts(e.offLength)
  {
    var on := Lasts(e.onLength);
    if phase < on then e.(on := true, countdown := e.onLength - phase)
    else e.(on := false, countdown := e.offLength - (phase - on))
  }

  lemma NextMod(n: nat, m: nat)
    requires m > 0
    ensures (n + 1) % m == if n % m + 1 == m then 0 else n % m + 1
  {
    var q, r := n / m, n % m;
    assert n == m * q + r;
    if r + 1 == m {
      assert n + 1 == m * (q + 1);
      ModOf(q + 1, 0, m);
    } else {
      ModOf(q, r + 1, m);
    }
  }

  lemma ModOf(q: nat, r: nat, m: nat)
    requires r < m
    ensures (m * q + r) % m == r
  {
    var n := m * q + r;
    var d := q - n / m;
    assert m * d == n % m - r;
    MultipleIsLarge(m, d);
  }

  lemma MultipleIsLarge(m: int, d: int)
    requires m > 0
    ensures (d >= 1 ==> m * d >= m) && (d <= -1 ==> m * d <= -m)
  {
  }

  lemma TickAtPhase(e: Entry, phase: nat)
    requires phase < Lasts(e.onLength) + Lasts(e.offLength)
    ensures var period := Lasts(e.onLength) + Lasts(e.offLength);
            Tick(AtPhase(e, phase)) == AtPhase(e, if phase + 1 == period then 0 else phase + 1)
  {
  }

  function Period(e: Entry): (m: nat)
    ensures m > 0
  {
    Lasts(e.onLength) + Lasts(e.offLength)
  }

  /** Where in its period an entry is after n ticks. */
  function Phase(n: nat, period: nat): (p: nat)
    requires period > 0
    ensures p < period && (n == 0 ==> p == 0)
  {
    n % period
  }

  lemma NextPhase(n: nat, period: nat)
    requires period > 0
    ensures Phase(n + 1, period) == if Phase(n, period) + 1 == period then 0 else Phase(n, period) + 1
  {
    NextMod(n, period);
  }

  lemma TickInPeriod(e: Entry, phase: nat)
    requires phase < Period(e)
    ensures Tick(AtPhase(e, phase)) == AtPhase(e, if phase + 1 == Period(e) then 0 else phase + 1)
    ensures Started(e) == AtPhase(e, 0)
  {
    hide Tick;
    TickAtPhase(e, phase);
  }

  lemma {:induction false} PhaseOf(request: Entry, n: nat)
    ensures Phase(n, Period(request)) < Lasts(request.onLength) + Lasts(request.offLength)
    ensures Ticks(Started(request), n) == AtPhase(request, Phase(n, Period(request)))
  {
    hide Tick, AtPhase, Phase, Started;
    if n > 0 {
      PhaseOf(request, n - 1);
      NextPhase(n - 1, Period(request));
      TickInPeriod(request, Phase(n - 1, Period(request)));
    } else {
      TickInPeriod(request, 0);
    }
  }

  /** For all lengths: n ticks after an add the entry is on iff n modulo the period is below its on time,
      and the countdown says how much of the half period is left. */
  lemma PhaseLaw(request: Entry, n: nat)
    ensures var on, off := Lasts(request.onLength), Lasts(request.offLength);
            && Ticks(Started(request), n) == AtPhase(request, n % (on + off))
            && (Ticks(Started(request), n).on <==> n % (on + off) < on)
  {
    hide Ticks, Started, Lasts;
    PhaseOf(request, n);
  }

  /** The first period in figures: on for the on length, counting down, then off for the off length, and then on again
      as at the start.  A length of 0 or above 32768 is over at the first tick. */
  lemma FirstPeriod(request: Entry, n: nat)
    ensures var e, on, off := Ticks(Started(request), n), request.onLength, request.offLength;
            && e.onLength == on && e.offLength == off && e.location == request.location
            && (1 <= on <= 32768 && n < on ==> e.on && e.countdown == on - n)
            && (1 <= on <= 32768 && 1 <= off <= 32768 && on <= n < on + off ==> !e.on && e.countdown == off - (n - on))
            && (1 <= on <= 32768 && 1 <= off <= 32768 && n == on + off ==> e.on && e.countdown == on)
            && ((on == 0 || on > 32768) && n == 1 ==> !e.on && e.countdown == off)
  {
    PhaseLaw(request, n);
    hide Ticks, Started;
    var period := Lasts(request.onLength) + Lasts(request.offLength);
    if n < period {
      ModOf(0, n, period);
    } else if n == period {
      ModOf(1, 0, period);
    }
  }

  lemma {:induction false} TimingStaysTheSame(a: Entry, b: Entry, n: nat)
    requires a.onLength == b.onLength && a.offLength == b.offLength && a.countdown == b.countdown && a.on == b.on
    ensures var x, y := Ticks(a, n), Ticks(b, n);
            x.onLength == y.onLength && x.offLength == y.offLength && x.countdown == y.countdown && x.on == y.on
  {
    if n > 0 {
      TimingStaysTheSame(a, b, n - 1);
    }
  }

  // ---------------------------------------------------------------- over runs of commands

  function TickCount(commands: seq<Command>): nat {
    if commands == [] then 0
    else TickCount(commands[..|commands| - 1]) + if commands[|commands| - 1].DoTick? then 1 else 0
  }

  /** The command leaves the newest entry at a location alone, but for ticks. */
  predicate Spares(c: Command, location: Word) {
    match c
    case DoAdd(request) => request.location != location
    case DoRemove(other) => other != location
    case DoSync(argument) => argument % 0x1_0000 != location
    case DoTick => true
  }

  predicate AllSpare(commands: seq<Command>, location: Word) {
    forall i :: 0 <= i < |commands| ==> Sound(commands[i]) && Spares(commands[i], location)
  }

  function Found(list: seq<Entry>, location: Word): Option<Entry> {
    var k := Newest(list, location);
    if k == |list| then None else Some(list[k])
  }

  function TickIfAny(e: Option<Entry>, n: nat): Option<Entry> {
    if e.None? then None else Some(Ticks(e.value, n))
  }

  lemma SparedByAdd(list: seq<Entry>, request: Entry, location: Word)
    requires request.location != location
    ensures Found(Added(list, request).0, location) == Found(list, location)
  {
    if Added(list, request).1 == 0 {
      NewestIs([Started(request)] + list, location, Newest(list, location) + 1);
    }
  }

  lemma SparedByRemove(list: seq<Entry>, other: Word, location: Word)
    requires other != location
    ensures Found(Removed(list, other).0, location) == Found(list, location)
  {
    var i, k := Newest(list, other), Newest(list, location);
    if i < |list| {
      NewestIs(Removed(list, other).0, location, if i < k then k - 1 else k);
    }
  }

  lemma SparedBySync(list: seq<Entry>, first: Word, second: Word, location: Word)
    requires second != location
    ensures Found(Synced(list, first, second).0, location) == Found(list, location)
  {
    NewestIs(Synced(list, first, second).0, location, Newest(list, location));
  }

  lemma FoundTicks(list: seq<Entry>, location: Word)
    ensures Found(TickAll(list), location) == TickIfAny(Found(list, location), 1)
  {
    NewestIs(TickAll(list), location, Newest(list, location));
    assert forall e :: Ticks(e, 1) == Tick(Ticks(e, 0));
  }

  lemma SparedByOne(list: seq<Entry>, c: Command, location: Word)
    requires Sound(c) && Spares(c, location)
    ensures Found(Apply(list, c).0, location) == TickIfAny(Found(list, location), if c.DoTick? then 1 else 0)
  {
    match c
    case DoAdd(request) => SparedByAdd(list, request, location);
    case DoRemove(other) => SparedByRemove(list, other, location);
    case DoSync(argument) => SparedBySync(list, argument / 0x1_0000, argument % 0x1_0000, location);
    case DoTick => FoundTicks(list, location);
  }

  lemma TickOnceMore(e: Option<Entry>, n: nat)
    ensures TickIfAny(TickIfAny(e, n), 1) == TickIfAny(e, n + 1)
    ensures TickIfAny(TickIfAny(e, n), 0) == TickIfAny(e, n)
  {
    if e.Some? {
      assert Ticks(Ticks(e.value, n), 1) == Tick(Ticks(Ticks(e.value, n), 0));
    }
  }

  /** Over any run that spares a location, its newest entry just ticks. */
  lemma {:induction false} SparedByRun(list: seq<Entry>, commands: seq<Command>, location: Word)
    requires AllSpare(commands, location)
    ensures Found(RunAll(list, commands).0, location) == TickIfAny(Found(list, location), TickCount(commands))
  {
    hide Found, Apply, Tick;
    if commands == [] {
      assert TickIfAny(Found(list, location), 0) == Found(list, location);
    } else {
      var last := |commands| - 1;
      TickOnceMore(Found(list, location), TickCount(commands[..last]));
      SparedByRun(list, commands[..last], location);
      SparedByOne(RunAll(list, commands[..last]).0, commands[last], location);
    }
  }

  /** Over any run of commands that spares its location, a new entry blinks by the phase law, counted from
      its add. */
  lemma BlinksByTheClock(list: seq<Entry>, request: Entry, commands: seq<Command>)
    requires Added(list, request).1 == 0 && AllSpare(commands, request.location)
    ensures var n, on, off := TickCount(commands), Lasts(request.onLength), Lasts(request.offLength);
            Found(RunAll(Added(list, request).0, commands).0, request.location) ==
              Some(AtPhase(request, n % (on + off)))
  {
    SparedByRun(Added(list, request).0, commands, request.location);
    PhaseLaw(request, TickCount(commands));
    NewestIs(Added(list, request).0, request.location, 0);
  }

  predicate Has(list: seq<Entry>, location: Word) {
    exists k :: 0 <= k < |list| && list[k].location == location
  }

  /** One command's effect by field.  An add fails iff the location is not on the screen or 2000 entries blink already;
      otherwise it puts the entry asked for in front, switched on with its whole on time ahead. */
  lemma AddLaw(list: seq<Entry>, request: Entry)
    requires Sound(DoAdd(request))
    ensures var (after, r) := Apply(list, DoAdd(request));
            if request.location >= 2000 || |list| == 2000 then r == -1 && after == list
            else
              && r == 0 && |after| == |list| + 1 && after[1..] == list
              && after[0].location == request.location && after[0].on && after[0].countdown == request.onLength
              && after[0].onLength == request.onLength && after[0].offLength == request.offLength
              && after[0].onChar == request.onChar && after[0].offChar == request.offChar
  {
  }

  /** A remove fails iff the location has no entry; otherwise it takes out its newest one and nothing else. */
  lemma RemoveLaw(list: seq<Entry>, location: Word)
    ensures var (after, r) := Apply(list, DoRemove(location));
            if !Has(list, location) then r == -1 && after == list
            else
              && r == 0
              && exists k :: 0 <= k < |list| && list[k].location == location && after == list[..k] + list[k + 1..]
                             && forall j :: 0 <= j < k ==> list[j].location != location
  {
    var k := Newest(list, location);
    if k < |list| {
      assert list[k].location == location;
    }
  }

  /** A sync fails iff either location has no entry.  Otherwise the newest entry at the low half takes lengths,
      countdown and status over from the newest at the high half, keeps place and characters, and no other entry
      changes. */
  lemma SyncLaw(list: seq<Entry>, first: Word, second: Word)
    ensures var (after, r) := Apply(list, DoSync(first * 0x1_0000 + second));
            if !Has(list, first) || !Has(list, second) then r == -1 && after == list
            else
              && r == 0 && |after| == |list|
              && Found(list, first).Some? && Found(list, second).Some? && Found(after, second).Some?
              && var from, to, now := Found(list, first).value, Found(list, second).value, Found(after, second).value;
                 && now.onLength == from.onLength && now.offLength == from.offLength
                 && now.countdown == from.countdown && now.on == from.on
                 && now.location == to.location == second && now.onChar == to.onChar && now.offChar == to.offChar
                 && (forall k :: 0 <= k < |list| && k != Newest(list, second) ==> after[k] == list[k])
  {
    var i, j := Newest(list, first), Newest(list, second);
    Halves(first, second);
    if i < |list| && j < |list| {
      assert list[i].location == first && list[j].location == second;
      NewestIs(Synced(list, first, second).0, second, j);
    }
  }

  lemma Halves(first: Word, second: Word)
    ensures (first * 0x1_0000 + second) / 0x1_0000 == first && (first * 0x1_0000 + second) % 0x1_0000 == second
  {
  }

  /** After a sync of two different locations they have equal lengths, countdown and status at every later tick of a run
      that spares both. */
  lemma SyncedBlinkAlike(list: seq<Entry>, first: Word, second: Word, commands: seq<Command>)
    requires Has(list, first) && Has(list, second) && AllSpare(commands, first) && AllSpare(commands, second)
    ensures var after := RunAll(Apply(list, DoSync(first * 0x1_0000 + second)).0, commands).0;
            && Found(after, first).Some? && Found(after, second).Some?
            && var a, b := Found(after, first).value, Found(after, second).value;
               a.onLength == b.onLength && a.offLength == b.offLength && a.countdown == b.countdown && a.on == b.on
  {
    var synced := Apply(list, DoSync(first * 0x1_0000 + second)).0;
    SyncLaw(list, first, second);
    SourceStays(list, first, second);
    hide Found, Apply, Tick;
    SparedByRun(synced, commands, first);
    SparedByRun(synced, commands, second);
    TimingStaysTheSame(Found(synced, first).value, Found(synced, second).value, TickCount(commands));
  }

  /** The source of a sync is not changed by it. */
  lemma SourceStays(list: seq<Entry>, first: Word, second: Word)
    requires Has(list, first) && Has(list, second)
    ensures var after := Apply(list, DoSync(first * 0x1_0000 + second)).0;
            Found(after, first).Some? && Found(after, first) == Found(list, first)
  {
    Halves(first, second);
    var i := Newest(list, first);
    var synced := Synced(list, first, second).0;
    NewestIs(synced, first, i);
    assert list[i].location == first;
  }

  /** Remove deletes just the newest entry: it undoes the last add. */
  lemma RemoveUndoesAdd(list: seq<Entry>, request: Entry)
    requires Added(list, request).1 == 0
    ensures Removed(Added(list, request).0, request.location) == (list, 0)
  {
    var longer := [Started(request)] + list;
    NewestIs(longer, request.location, 0);
    assert longer[..0] + longer[1..] == list;
  }

  /** An add at location 0 leaves its slot free, so that the next add ties the list into a knot. */
  lemma SecondAddAfterZeroLoops(pool: seq<Node>, head: int, order: seq<int>, zero: Entry, next: Entry)
    requires Represents(pool, head, order) && zero.location == 0 && next.location < CELLS
    ensures var (once, top, r) := AddTo(pool, head, zero);
            var (twice, again, _) := AddTo(once, top, next);
            r == 0 ==> again == top && twice[again].next == again
  {
    var (once, top, r) := AddTo(pool, head, zero);
    if r == 0 {
      FirstFreeIsFirst(pool);
      FreeIs(once, top);
    }
  }

  lemma {:induction false} FirstFreeIsFirst(pool: seq<Node>)
    ensures forall j :: 0 <= j < FirstFree(pool) ==> pool[j].entry.location != 0
  {
    if pool != [] {
      FirstFreeIsFirst(pool[1..]);
      forall j | 0 <= j < FirstFree(pool) ensures pool[j].entry.location != 0 {
        if j > 0 {
          assert pool[j] == pool[1..][j - 1];
        }
      }
    }
  }
}
