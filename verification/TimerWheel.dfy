/**
 The five-level timer wheel of skynet_timer.c.

 A `link_list` of the wheel is a sequence of nodes, so `link` appends and `link_clear` returns
 the sequence and leaves the empty one. The tick counter is 32 bits wide and wraps to zero.
 The mask tests of the code, `(a | (2^k - 1)) == (b | (2^k - 1))`, compare all bits from bit `k`
 upwards and are written `a / 2^k == b / 2^k`; `x & (2^k - 1)` is `x % 2^k`.
 */
module TimerWheel {

  import opened Wrappers

  const WRAP: int := 0x1_0000_0000

  type Time = t: int | 0 <= t < 0x1_0000_0000
  type Delay = d: int | 1 <= d < 0x8000_0000 witness 1

  datatype Event = Event(handle: nat, session: int)
  datatype TimerNode = TimerNode(event: Event, expire: Time)
  datatype Request = Request(event: Event, delay: Delay)

  /** A list of the wheel: `near[idx]`, or `t[level][idx]`. */
  datatype Slot = Near(idx: nat) | Far(level: nat, idx: nat) {
    predicate InWheel() {
      match this
      case Near(i) => i < 0x100
      case Far(l, i) => l < 4 && i < 0x40
    }

    /** Slots that hold nodes closer to expiry than level `l` does. */
    predicate Below(l: nat) {
      Near? || level < l
    }
  }

  function Later(now: Time, d: int): (r: Time)
    requires 0 <= d
  {
    (now + d) % WRAP
  }

  /** Ticks still to go, as unsigned 32-bit subtraction gives it. */
  function Remaining(expire: Time, now: Time): (r: Time) {
    (expire - now) % WRAP
  }

  /** The one slot fixed by a deadline and the current tick. */
  function SlotOf(expire: Time, now: Time): (s: Slot)
    ensures s.InWheel()
  {
    if expire / 0x100 == now / 0x100 then Near(expire % 0x100)
    else if expire / 0x4000 == now / 0x4000 then Far(0, expire / 0x100 % 0x40)
    else if expire / 0x10_0000 == now / 0x10_0000 then Far(1, expire / 0x4000 % 0x40)
    else if expire / 0x400_0000 == now / 0x400_0000 then Far(2, expire / 0x10_0000 % 0x40)
    else Far(3, expire / 0x400_0000 % 0x40)
  }

  /** The list that `timer_shift` redistributes when the clock reaches `next`. */
  function Cascade(next: Time): (c: Option<Slot>)
    ensures c.Some? ==> c.value.Far? && c.value.InWheel()
  {
    if next == 0 then Some(Far(3, 0))
    else if next % 0x100 != 0 then None
    else if next / 0x100 % 0x40 != 0 then Some(Far(0, next / 0x100 % 0x40))
    else if next / 0x4000 % 0x40 != 0 then Some(Far(1, next / 0x4000 % 0x40))
    else if next / 0x10_0000 % 0x40 != 0 then Some(Far(2, next / 0x10_0000 % 0x40))
    else Some(Far(3, next / 0x400_0000 % 0x40))
  }

  // ---- A tick read as one 8-bit and four 6-bit digits ----

  datatype Clock = Clock(low: nat, d0: nat, d1: nat, d2: nat, d3: nat) {
    predicate Valid() {
      low < 0x100 && d0 < 0x40 && d1 < 0x40 && d2 < 0x40 && d3 < 0x40
    }

    /** The digits after one more tick, carries included. */
    function Next(): Clock {
      if low < 0xFF then this.(low := low + 1)
      else if d0 < 0x3F then Clock(0, d0 + 1, d1, d2, d3)
      else if d1 < 0x3F then Clock(0, 0, d1 + 1, d2, d3)
      else if d2 < 0x3F then Clock(0, 0, 0, d2 + 1, d3)
      else Clock(0, 0, 0, 0, if d3 < 0x3F then d3 + 1 else 0)
    }

    /** `this` is ahead of `c` in the same revolution of the top digit, or in another one. */
    predicate Ahead(c: Clock) {
      d3 == c.d3 ==>
        || d2 > c.d2
        || (d2 == c.d2 && (
              || d1 > c.d1
              || (d1 == c.d1 && (d0 > c.d0 || (d0 == c.d0 && low > c.low)))))
    }
  }

  function Read(x: Time): (c: Clock)
    ensures c.Valid()
  {
    Clock(x % 0x100, x / 0x100 % 0x40, x / 0x4000 % 0x40, x / 0x10_0000 % 0x40, x / 0x400_0000)
  }

  lemma {:induction false} Quotients(x: Time)
    ensures var c := Read(x);
            && x / 0x10_0000 == 0x40 * c.d3 + c.d2
            && x / 0x4000 == 0x40 * (x / 0x10_0000) + c.d1
            && x / 0x100 == 0x40 * (x / 0x4000) + c.d0
            && x == 0x100 * (x / 0x100) + c.low
  {
  }

  lemma {:induction false} ReadUnique(x: Time, c: Clock)
    requires c.Valid()
    requires x == 0x100 * (0x40 * (0x40 * (0x40 * c.d3 + c.d2) + c.d1) + c.d0) + c.low
    ensures Read(x) == c
  {
    Quotients(x);
    assert x / 0x100 == 0x40 * (0x40 * (0x40 * c.d3 + c.d2) + c.d1) + c.d0;
    assert x / 0x4000 == 0x40 * (0x40 * c.d3 + c.d2) + c.d1;
    assert x / 0x10_0000 == 0x40 * c.d3 + c.d2;
  }

  lemma {:induction false} ReadNext(now: Time)
    ensures Read(Later(now, 1)) == Read(now).Next()
  {
    Quotients(now);
    ReadUnique(Later(now, 1), Read(now).Next());
  }

  lemma {:induction false} SameTop(expire: Time, now: Time)
    requires 1 <= Remaining(expire, now) < 0x8000_0000 && expire / 0x400_0000 == now / 0x400_0000
    ensures expire > now
  {
  }

  lemma {:induction false} ReadAhead(expire: Time, now: Time)
    requires 1 <= Remaining(expire, now) < 0x8000_0000
    ensures Read(expire).Ahead(Read(now))
  {
    Quotients(expire);
    Quotients(now);
    if Read(expire).d3 == Read(now).d3 {
      SameTop(expire, now);
      hide Read;
      assert expire / 0x10_0000 >= now / 0x10_0000;
      assert expire / 0x4000 >= now / 0x4000;
      assert expire / 0x100 >= now / 0x100;
    }
  }

  function SlotByDigits(e: Clock, n: Clock): Slot {
    if e.d3 != n.d3 then Far(3, e.d3)
    else if e.d2 != n.d2 then Far(2, e.d2)
    else if e.d1 != n.d1 then Far(1, e.d1)
    else if e.d0 != n.d0 then Far(0, e.d0)
    else Near(e.low)
  }

  lemma {:induction false} ReadSlot(expire: Time, now: Time)
    ensures SlotOf(expire, now) == SlotByDigits(Read(expire), Read(now))
  {
    Quotients(expire);
    Quotients(now);
  }

  /** The placement of a live node changes on a tick only if it sits in the cascading slot, and then
      it moves strictly closer; no live node is closer than the cascading slot. */
  lemma {:induction false} SlotAfterTick(expire: Time, now: Time)
    requires 1 <= Remaining(expire, now) < 0x8000_0000
    ensures var next := Later(now, 1);
            var c := Cascade(next);
            if c.Some? && SlotOf(expire, now) == c.value then
              SlotOf(expire, next).Below(c.value.level)
            else
              && SlotOf(expire, next) == SlotOf(expire, now)
              && (c.Some? ==> !SlotOf(expire, now).Below(c.value.level))
  {
    var next := Later(now, 1);
    ReadNext(now);
    ReadAhead(expire, now);
    ReadSlot(expire, now);
    ReadSlot(expire, next);
    CascadeByDigits(next);
  }

  lemma {:induction false} CascadeByDigits(next: Time)
    ensures var c := Read(next);
            Cascade(next) ==
              if c.low != 0 then None
              else if c.d0 != 0 then Some(Far(0, c.d0))
              else if c.d1 != 0 then Some(Far(1, c.d1))
              else if c.d2 != 0 then Some(Far(2, c.d2))
              else Some(Far(3, c.d3))
  {
    Quotients(next);
  }

  // ---- Sublists of the pending timers ----

  function Keep(p: seq<TimerNode>, f: TimerNode -> bool): (r: seq<TimerNode>) {
    if p == [] then [] else
    var last := p[|p| - 1];
    if f(last) then Keep(p[..|p| - 1], f) + [last] else Keep(p[..|p| - 1], f)
  }

  function InSlot(now: Time, s: Slot): TimerNode -> bool {
    (n: TimerNode) => SlotOf(n.expire, now) == s
  }

  function DueAt(now: Time): TimerNode -> bool {
    (n: TimerNode) => n.expire == now
  }

  function NotDueAt(now: Time): TimerNode -> bool {
    (n: TimerNode) => n.expire != now
  }

  /** What the list at slot `s` must hold at tick `now`: the pending timers placed there, oldest first. */
  function Select(p: seq<TimerNode>, now: Time, s: Slot): seq<TimerNode> {
    Keep(p, InSlot(now, s))
  }

  lemma {:induction false} KeepAppend(p: seq<TimerNode>, n: TimerNode, f: TimerNode -> bool)
    ensures Keep(p + [n], f) == if f(n) then Keep(p, f) + [n] else Keep(p, f)
  {
    assert (p + [n])[..|p|] == p;
  }

  lemma {:induction false} KeepMembers(p: seq<TimerNode>, f: TimerNode -> bool)
    ensures forall n :: n in Keep(p, f) <==> n in p && f(n)
  {
    if p != [] {
      KeepMembers(p[..|p| - 1], f);
    }
  }

  lemma {:induction false} KeepSame(p: seq<TimerNode>, f: TimerNode -> bool, g: TimerNode -> bool)
    requires forall n :: n in p ==> f(n) == g(n)
    ensures Keep(p, f) == Keep(p, g)
  {
    if p != [] {
      KeepSame(p[..|p| - 1], f, g);
    }
  }

  lemma {:induction false} KeepNone(p: seq<TimerNode>, f: TimerNode -> bool)
    requires forall n :: n in p ==> !f(n)
    ensures Keep(p, f) == []
  {
    if p != [] {
      KeepNone(p[..|p| - 1], f);
    }
  }

  lemma {:induction false} KeepKeep(p: seq<TimerNode>, f: TimerNode -> bool, g: TimerNode -> bool, h: TimerNode -> bool)
    requires forall n :: n in p ==> h(n) == (f(n) && g(n))
    ensures Keep(Keep(p, f), g) == Keep(p, h)
  {
    if p != [] {
      var q, last := p[..|p| - 1], p[|p| - 1];
      KeepKeep(q, f, g, h);
      if f(last) {
        KeepAppend(Keep(q, f), last, g);
      } else {
        assert Keep(p, f) == Keep(q, f);
      }
    }
  }

  /** Among live nodes the near slot of the current tick holds exactly the due ones. */
  lemma {:induction false} DueSlot(expire: Time, now: Time)
    requires Remaining(expire, now) < 0x8000_0000
    ensures SlotOf(expire, now) == Near(now % 0x100) <==> expire == now
  {
  }

  ghost predicate Live(p: seq<TimerNode>, now: Time) {
    forall n :: n in p ==> 1 <= Remaining(n.expire, now) < 0x8000_0000
  }

  // ---- All lists of the wheel as one value ----

  type Lists = imap<Slot, seq<TimerNode>>

  ghost predicate WholeWheel(w: Lists) {
    forall s: Slot :: s in w <==> s.InWheel()
  }

  /** Every list holds exactly the pending timers whose slot it is at tick `now`. */
  ghost predicate PlacedAt(w: Lists, p: seq<TimerNode>, now: Time) {
    WholeWheel(w) && forall s: Slot | s.InWheel() :: w[s] == Select(p, now, s)
  }

  ghost function Link(w: Lists, s: Slot, n: TimerNode): (r: Lists)
    requires WholeWheel(w) && s.InWheel()
    ensures WholeWheel(r)
  {
    w[s := w[s] + [n]]
  }

  ghost function LinkAll(w: Lists, list: seq<TimerNode>, now: Time): (r: Lists)
    requires WholeWheel(w)
    ensures WholeWheel(r)
  {
    if list == [] then w else
    var last := list[|list| - 1];
    Link(LinkAll(w, list[..|list| - 1], now), SlotOf(last.expire, now), last)
  }

  lemma {:induction false} LinkAllStep(w: Lists, list: seq<TimerNode>, j: nat, now: Time)
    requires WholeWheel(w) && j < |list|
    ensures LinkAll(w, list[..j + 1], now) ==
            Link(LinkAll(w, list[..j], now), SlotOf(list[j].expire, now), list[j])
  {
    assert list[..j + 1][..j] == list[..j];
  }

  lemma {:induction false} LinkAllSelects(w: Lists, list: seq<TimerNode>, now: Time, s: Slot)
    requires WholeWheel(w) && s.InWheel()
    ensures LinkAll(w, list, now)[s] == w[s] + Select(list, now, s)
  {
    if list != [] {
      var init, last := list[..|list| - 1], list[|list| - 1];
      LinkAllSelects(w, init, now, s);
      assert LinkAll(w, list, now) == Link(LinkAll(w, init, now), SlotOf(last.expire, now), last);
      assert InSlot(now, s)(last) ==> Select(list, now, s) == Select(init, now, s) + [last];
    }
  }

  lemma {:induction false} RemainingAfterAdd(now: Time, d: Delay)
    ensures Remaining(Later(now, d), now) == d
  {
  }

  lemma {:induction false} PlacedAfterAdd(w: Lists, p: seq<TimerNode>, now: Time, n: TimerNode)
    requires PlacedAt(w, p, now) && Live(p, now)
    requires 1 <= Remaining(n.expire, now) < 0x8000_0000
    ensures PlacedAt(Link(w, SlotOf(n.expire, now), n), p + [n], now)
    ensures Live(p + [n], now)
  {
    forall s: Slot | s.InWheel() { KeepAppend(p, n, InSlot(now, s)); }
  }

  lemma {:induction false} PlacedAfterMove(w: Lists, p: seq<TimerNode>, prev: Time, c: Slot)
    requires PlacedAt(w, p, prev) && Live(p, prev)
    requires Cascade(Later(prev, 1)) == Some(c)
    ensures PlacedAt(LinkAll(w[c := []], w[c], Later(prev, 1)), p, Later(prev, 1))
  {
    var next := Later(prev, 1);
    forall n | n in p { SlotAfterTick(n.expire, prev); }
    forall s: Slot | s.InWheel()
      ensures LinkAll(w[c := []], w[c], next)[s] == Select(p, next, s)
    {
      LinkAllSelects(w[c := []], w[c], next, s);
      MovedSlot(p, prev, next, c, s);
    }
  }

  lemma {:induction false} PlacedAfterNoMove(w: Lists, p: seq<TimerNode>, prev: Time)
    requires PlacedAt(w, p, prev) && Live(p, prev)
    requires Cascade(Later(prev, 1)) == None
    ensures PlacedAt(w, p, Later(prev, 1))
  {
    forall n | n in p { SlotAfterTick(n.expire, prev); }
    forall s: Slot | s.InWheel() { KeepSame(p, InSlot(prev, s), InSlot(Later(prev, 1), s)); }
  }

  /** A slot after its nodes were redistributed: either it was refilled from the cascading list alone,
      or nothing in it changed. */
  lemma {:induction false} MovedSlot(p: seq<TimerNode>, prev: Time, now: Time, c: Slot, s: Slot)
    requires c.Far?
    requires forall n :: n in p ==>
               if SlotOf(n.expire, prev) == c then
                 SlotOf(n.expire, now).Below(c.level)
               else
                 SlotOf(n.expire, now) == SlotOf(n.expire, prev) && !SlotOf(n.expire, prev).Below(c.level)
    ensures (if s == c then [] else Select(p, prev, s)) + Select(Select(p, prev, c), now, s) == Select(p, now, s)
  {
    if s.Below(c.level) {
      KeepNone(p, InSlot(prev, s));
      KeepKeep(p, InSlot(prev, c), InSlot(now, s), InSlot(now, s));
    } else {
      KeepMembers(p, InSlot(prev, c));
      KeepNone(Select(p, prev, c), InSlot(now, s));
      if s == c {
        KeepNone(p, InSlot(now, s));
      } else {
        KeepSame(p, InSlot(prev, s), InSlot(now, s));
      }
    }
  }

  ghost predicate NotPast(p: seq<TimerNode>, now: Time) {
    forall n :: n in p ==> Remaining(n.expire, now) < 0x8000_0000
  }

  lemma {:induction false} DueList(p: seq<TimerNode>, now: Time)
    requires NotPast(p, now)
    ensures Select(p, now, Near(now % 0x100)) == Keep(p, DueAt(now))
  {
    forall n | n in p { DueSlot(n.expire, now); }
    KeepSame(p, InSlot(now, Near(now % 0x100)), DueAt(now));
  }

  lemma {:induction false} RestOfSlot(p: seq<TimerNode>, now: Time, s: Slot)
    requires NotPast(p, now)
    ensures Select(Keep(p, NotDueAt(now)), now, s) == if s == Near(now % 0x100) then [] else Select(p, now, s)
  {
    forall n | n in p { DueSlot(n.expire, now); }
    if s == Near(now % 0x100) {
      KeepMembers(p, NotDueAt(now));
      KeepNone(Keep(p, NotDueAt(now)), InSlot(now, s));
    } else {
      KeepKeep(p, NotDueAt(now), InSlot(now, s), InSlot(now, s));
    }
  }

  lemma {:induction false} RestIsLive(p: seq<TimerNode>, now: Time)
    requires NotPast(p, now)
    ensures Live(Keep(p, NotDueAt(now)), now)
  {
    KeepMembers(p, NotDueAt(now));
  }

  /** Taking the due list away leaves the rest placed and live. */
  lemma {:induction false} PlacedAfterDispatch(w: Lists, p: seq<TimerNode>, now: Time)
    requires PlacedAt(w, p, now) && NotPast(p, now)
    ensures w[Near(now % 0x100)] == Keep(p, DueAt(now))
    ensures PlacedAt(w[Near(now % 0x100) := []], Keep(p, NotDueAt(now)), now)
    ensures Live(Keep(p, NotDueAt(now)), now)
  {
    DueList(p, now);
    RestIsLive(p, now);
    forall s: Slot | s.InWheel() { RestOfSlot(p, now, s); }
  }

  /** What `timer_shift` does to the lists re-establishes the placement for the next tick. */
  lemma {:induction false} TickPlaces(w: Lists, p: seq<TimerNode>, now: Time)
    requires PlacedAt(w, p, now) && Live(p, now)
    ensures PlacedAt(Shifted(w, Later(now, 1)), p, Later(now, 1))
    ensures NotPast(p, Later(now, 1))
  {
    NotPastAfterTick(p, now);
    var c := Cascade(Later(now, 1));
    if c.Some? {
      PlacedAfterMove(w, p, now, c.value);
    } else {
      PlacedAfterNoMove(w, p, now);
    }
  }

  ghost function Shifted(w: Lists, next: Time): Lists
    requires WholeWheel(w)
  {
    var c := Cascade(next);
    if c.Some? then LinkAll(w[c.value := []], w[c.value], next) else w
  }

  lemma {:induction false} NotPastAfterTick(p: seq<TimerNode>, now: Time)
    requires Live(p, now)
    ensures NotPast(p, Later(now, 1))
  {
  }

  /** `x & (mask - 1)`, where `mask` is the span of one slot of level `i`. */
  function LowBits(x: Time, i: nat): int
    requires i <= 3
  {
    if i == 0 then x % 0x100 else if i == 1 then x % 0x4000 else if i == 2 then x % 0x10_0000 else x % 0x400_0000
  }

  /** `x >> (8 + 6 * i)` */
  function HighBits(x: Time, i: nat): int
    requires i <= 3
  {
    if i == 0 then x / 0x100 else if i == 1 then x / 0x4000 else if i == 2 then x / 0x10_0000 else x / 0x400_0000
  }

  predicate LowDigitsZero(ct: Time, i: nat) {
    && (i > 0 ==> ct % 0x100 == 0 && ct / 0x100 % 0x40 == 0)
    && (i > 1 ==> ct / 0x4000 % 0x40 == 0)
    && (i > 2 ==> ct / 0x10_0000 % 0x40 == 0)
  }

  lemma {:induction false} CascadeFound(ct: Time, i: nat, idx: nat)
    requires ct != 0 && i <= 3 && LowBits(ct, i) == 0 && LowDigitsZero(ct, i)
    requires idx == HighBits(ct, i) % 0x40
    ensures idx != 0 ==> Cascade(ct) == Some(Far(i, idx))
    ensures idx == 0 ==> i < 3 && LowDigitsZero(ct, i + 1) && HighBits(ct, i) / 0x40 == HighBits(ct, i + 1)
  {
    Quotients(ct);
  }

  lemma {:induction false} CascadeStops(ct: Time, i: nat)
    requires i <= 3 && LowBits(ct, i) != 0 && LowDigitsZero(ct, i)
    ensures Cascade(ct) == None
  {
    Quotients(ct);
  }

  /** The search of `timer_shift` for the list to redistribute at tick `ct`. */
  method CascadingList(ct: Time) returns (c: Option<Slot>)
    ensures c == Cascade(ct)
  {
    if ct == 0 {
      return Some(Far(3, 0));
    }
    var rest := ct / 0x100;
    var i := 0;
    while LowBits(ct, i) == 0
      invariant 0 <= i <= 3
      invariant rest == HighBits(ct, i)
      invariant LowDigitsZero(ct, i)
      decreases 3 - i
    {
      var idx := rest % 0x40;
      CascadeFound(ct, i, idx);
      if idx != 0 {
        return Some(Far(i, idx));
      }
      rest := rest / 0x40;
      i := i + 1;
    }
    CascadeStops(ct, i);
    return None;
  }

  class Wheel {
    const near: array<seq<TimerNode>>
    const t: array2<seq<TimerNode>>
    var time: Time
    /** Timers added and not yet dispatched, in the order they were added. */
    ghost var pending: seq<TimerNode>

    ghost predicate Shape() {
      near.Length == 0x100 && t.Length0 == 4 && t.Length1 == 0x40
    }

    ghost function Content(): (w: Lists)
      requires Shape()
      reads near, t
      ensures WholeWheel(w)
    {
      imap s: Slot | s.InWheel() :: match s case Near(i) => near[i] case Far(l, i) => t[l, i]
    }

    ghost predicate Valid()
      reads this, near, t
    {
      Shape() && PlacedAt(Content(), pending, time) && Live(pending, time)
    }

    constructor ()
      ensures Valid() && pending == [] && time == 0
      ensures fresh(near) && fresh(t)
    {
      near := new seq<TimerNode>[0x100](_ => []);
      t := new seq<TimerNode>[4, 0x40]((_, _) => []);
      time := 0;
      pending := [];
    }

    method AddNode(node: TimerNode)
      requires Shape()
      modifies near, t
      ensures Content() == Link(old(Content()), SlotOf(node.expire, time), node)
    {
      var e, now := node.expire, time;
      if e / 0x100 == now / 0x100 {
        near[e % 0x100] := near[e % 0x100] + [node];
      } else {
        var i := 0;
        while i < 3
          invariant 0 <= i <= 3
          invariant i > 0 ==> HighBits(e, 1) != HighBits(now, 1)
          invariant i > 1 ==> HighBits(e, 2) != HighBits(now, 2)
          invariant i > 2 ==> HighBits(e, 3) != HighBits(now, 3)
        {
          if HighBits(e, i + 1) == HighBits(now, i + 1) {
            break;
          }
          i := i + 1;
        }
        var idx := HighBits(e, i) % 0x40;
        assert Far(i, idx) == SlotOf(e, now);
        t[i, idx] := t[i, idx] + [node];
      }
    }

    /** `timer_add`: the deadline is `delay` ticks ahead, modulo the width of the clock. */
    method TimerAdd(r: Request)
      requires Valid()
      modifies this`pending, near, t
      ensures Valid()
      ensures pending == old(pending) + [TimerNode(r.event, Later(time, r.delay))]
    {
      hide PlacedAt, Live, Remaining, SlotOf;
      var node := TimerNode(r.event, Later(time, r.delay));
      RemainingAfterAdd(time, r.delay);
      PlacedAfterAdd(Content(), pending, time, node);
      AddNode(node);
      pending := pending + [node];
    }

    /** `move_list`: empties one list and places its nodes again, in order, for the current tick. */
    method MoveList(level: nat, idx: nat)
      requires Shape() && level < 4 && idx < 0x40
      modifies near, t
      ensures Content() == LinkAll(old(Content())[Far(level, idx) := []], old(Content())[Far(level, idx)], time)
    {
      ghost var w := Content()[Far(level, idx) := []];
      var list := t[level, idx];
      t[level, idx] := [];
      assert Content() == w;
      assert list[..0] == [];
      hide LinkAll, Link, SlotOf, WholeWheel, Content;
      var j := 0;
      while j < |list|
        invariant 0 <= j <= |list|
        invariant Content() == LinkAll(w, list[..j], time)
      {
        AddNode(list[j]);
        LinkAllStep(w, list, j, time);
        j := j + 1;
      }
      assert list[..|list|] == list;
    }

    /** `++T->time`, then at most one list is redistributed. */
    method TimerShift()
      requires Shape()
      modifies this`time, near, t
      ensures time == Later(old(time), 1)
      ensures Content() == Shifted(old(Content()), time)
    {
      hide Later, Cascade, LinkAll;
      time := Later(time, 1);
      var c := CascadingList(time);
      match c {
        case Some(Far(level, idx)) => MoveList(level, idx);
        case _ =>
      }
    }

    /** Requests that other threads make, served one after the other. */
    method AddAll(rs: seq<Request>)
      requires Valid()
      modifies this`pending, near, t
      ensures Valid()
      ensures pending == old(pending) + Nodes(rs, time)
    {
      hide *;
      NodesEmpty(time);
      assert rs[..0] == [];
      var j := 0;
      while j < |rs|
        invariant 0 <= j <= |rs|
        invariant Valid()
        invariant pending == old(pending) + Nodes(rs[..j], time)
      {
        TimerAdd(rs[j]);
        NodesPrefix(rs, j, time);
        j := j + 1;
      }
      assert rs[..|rs|] == rs;
    }

    /** `timer_execute`: takes the due list and dispatches it with the lock released. `window` are the
        requests that other threads get in while it is released; none of them can refill the due list,
        which is why the loop ends. */
    method TimerExecute(window: seq<Request>) returns (fired: seq<TimerNode>, released: bool)
      requires Shape() && PlacedAt(Content(), pending, time) && NotPast(pending, time)
      modifies this`pending, near, t
      ensures Valid()
      ensures fired == Keep(old(pending), DueAt(time))
      ensures released <==> fired != []
      ensures pending == Keep(old(pending), NotDueAt(time)) + if released then Nodes(window, time) else []
    {
      hide PlacedAt, Live, NotPast, Keep, Nodes;
      var idx := time % 0x100;
      fired, released := [], false;
      ghost var p, w := pending, Content();
      PlacedAfterDispatch(w, p, time);
      while near[idx] != []
        invariant released ==> Valid() && near[idx] == []
        invariant released ==> fired == Keep(p, DueAt(time)) != []
        invariant released ==> pending == Keep(p, NotDueAt(time)) + Nodes(window, time)
        invariant !released ==> Content() == w && pending == p && fired == []
        decreases !released
      {
        var current := near[idx];
        assert Content()[Near(idx)] == current;
        near[idx] := [];
        pending := Keep(p, NotDueAt(time));
        assert Content() == w[Near(idx) := []];
        fired := fired + current;
        AddAll(window);
        released := true;
        DueListEmpty(Content(), pending, time);
        assert Content()[Near(idx)] == [];
      }
      if !released {
        assert Content()[Near(idx)] == [];
        KeepRest(p, time);
      }
    }

    /** `timer_update`, with the requests `window` that other threads make while it runs: those the
        dispatch lets in and those that wait for the lock until the end. */
    method TimerUpdate(window: seq<Request>) returns (fired: seq<TimerNode>)
      requires Valid()
      modifies this, near, t
      ensures Valid()
      ensures time == Later(old(time), 1)
      ensures fired == Keep(old(pending), DueAt(time))
      ensures pending == Keep(old(pending), NotDueAt(time)) + Nodes(window, time)
    {
      hide PlacedAt, Live, NotPast, Keep, Nodes, Shifted, Later, Content, WholeWheel, DueAt, NotDueAt, Select;
      ghost var p := pending;
      LiveIsNotPast(p, time);
      var early, released := TimerExecute([]);
      NothingDue(p, time);
      KeepRest(p, time);
      assert early == [] && pending == p;
      TickPlaces(Content(), p, time);
      TimerShift();
      fired, released := TimerExecute(window);
      if !released {
        AddAll(window);
      }
    }
  }

  function Nodes(rs: seq<Request>, now: Time): (ns: seq<TimerNode>)
    ensures |ns| == |rs|
  {
    seq(|rs|, i requires 0 <= i < |rs| => TimerNode(rs[i].event, Later(now, rs[i].delay)))
  }

  lemma {:induction false} NodesEmpty(now: Time)
    ensures Nodes([], now) == []
  {
  }

  lemma {:induction false} NodesPrefix(rs: seq<Request>, j: nat, now: Time)
    requires j < |rs|
    ensures Nodes(rs[..j + 1], now) == Nodes(rs[..j], now) + [TimerNode(rs[j].event, Later(now, rs[j].delay))]
  {
  }

  lemma {:induction false} LiveIsNotPast(p: seq<TimerNode>, now: Time)
    requires Live(p, now)
    ensures NotPast(p, now)
  {
  }

  lemma {:induction false} NothingDue(p: seq<TimerNode>, now: Time)
    requires Live(p, now)
    ensures Keep(p, DueAt(now)) == [] == Select(p, now, Near(now % 0x100))
  {
    LiveIsNotPast(p, now);
    DueList(p, now);
    KeepNone(p, DueAt(now));
  }

  lemma {:induction false} DueListEmpty(w: Lists, p: seq<TimerNode>, now: Time)
    requires PlacedAt(w, p, now) && Live(p, now)
    ensures w[Near(now % 0x100)] == []
  {
    NothingDue(p, now);
  }

  lemma {:induction false} KeepRest(p: seq<TimerNode>, now: Time)
    requires Keep(p, DueAt(now)) == []
    ensures Keep(p, NotDueAt(now)) == p
  {
    if p != [] {
      KeepRest(p[..|p| - 1], now);
    }
  }
}
