/**
 The handle table of skynet_handle.c: live services sit at `handle & (slot_size - 1)` in a slot array
 that doubles when a scan finds no free slot. `slot_size` is a power of two, so the mask is written as
 a remainder; registering a service and storing the handle in it are one step.
 */
module HandleTable {

  import opened Wrappers
  import opened Division
  import HandleNames

  const HANDLE_MASK: nat := 0xff_ffff
  const DEFAULT_SLOT_SIZE: nat := 4

  type Handle = nat

  datatype Context = Context(id: nat, handle: Handle)

  // ---- Powers of two ----

  predicate PowerOfTwo(n: nat) {
    n == 1 || (n > 0 && n % 2 == 0 && PowerOfTwo(n / 2))
  }

  lemma {:induction false} PowerDivides(n: nat, m: nat)
    requires PowerOfTwo(n) && PowerOfTwo(m) && n <= m
    ensures m % n == 0
  {
    if n > 1 {
      PowerDivides(n / 2, m / 2);
      var q := (m / 2) / (n / 2);
      assert m == q * n;
      ModShift(0, n, q);
    }
  }

  lemma {:induction false} DoublePower(n: nat)
    requires PowerOfTwo(n)
    ensures PowerOfTwo(2 * n)
  {
    assert (2 * n) / 2 == n;
  }

  lemma {:induction false} ProductPower(a: nat, b: nat)
    requires PowerOfTwo(a) && PowerOfTwo(b)
    ensures PowerOfTwo(a * b)
  {
    if a > 1 {
      ProductPower(a / 2, b);
      DoublePower((a / 2) * b);
      hide PowerOfTwo;
      assert a == 2 * (a / 2);
      assert a * b == 2 * ((a / 2) * b);
    }
  }

  lemma {:induction false} HandleSpace()
    ensures PowerOfTwo(HANDLE_MASK + 1)
  {
    assert PowerOfTwo(2) && PowerOfTwo(4);
    ProductPower(4, 4);
    ProductPower(16, 16);
    hide PowerOfTwo;
    ProductPower(0x100, 0x100);
    ProductPower(0x100, 0x1_0000);
  }

  /** Where an entry goes when the table doubles: its old place or the same place in the new half. */
  lemma {:induction false} ModDouble(h: nat, n: nat)
    requires n > 0
    ensures h % (2 * n) == h % n || h % (2 * n) == h % n + n
  {
    var q, r := h / (2 * n), h % (2 * n);
    assert h == r + (2 * q) * n;
    ModShift(r, n, 2 * q);
    if r < n {
      ModSmall(r, n);
    } else {
      ModShift(r - n, n, 1);
      ModSmall(r - n, n);
    }
  }

  // ---- The scan ----

  /** The i-th handle a scan looks at: on from `index`, round from HANDLE_MASK to 1. */
  function Candidate(index: nat, i: nat): Handle {
    var h := index + i;
    if h <= HANDLE_MASK then h
    else if h - HANDLE_MASK <= HANDLE_MASK then h - HANDLE_MASK
    else h - 2 * HANDLE_MASK
  }

  lemma {:induction false} StepsTo(index: nat, n: nat, r: nat) returns (i: nat)
    requires r < n
    ensures i < n && (index + i) % n == r
  {
    var d, q := index % n, index / n;
    ModSmall(r, n);
    i := if d <= r then r - d else r + n - d;
    assert index == q * n + d;
    ModShift(r, n, if d <= r then q else q + 1);
  }

  lemma {:induction false} LastBlock(all: nat, n: nat, r: nat)
    requires 0 < n <= all && all % n == 0 && r < n
    ensures (all - n + r) % n == r
  {
    var c := all / n;
    assert all == c * n && c >= 1;
    assert (c - 1) * n == c * n - n;
    ModSmall(r, n);
    ModShift(r, n, c - 1);
  }

  /** A scan of `n` candidates from `index` goes round past handle 0 and so does not look at slot 0. One
      that starts behind the last handle does, as candidate `n`, unless that is no handle either. */
  predicate MissesZero(index: nat, n: nat) {
    index + n - 1 > HANDLE_MASK && (index <= HANDLE_MASK || n == HANDLE_MASK + 1)
  }

  /** One scan visits every slot, except slot 0 exactly when it misses it. */
  lemma {:induction false} ScanCovers(index: nat, n: nat, r: nat) returns (i: nat)
    requires PowerOfTwo(n) && n <= HANDLE_MASK + 1 && 1 <= index <= HANDLE_MASK + 1 && r < n
    requires r > 0 || !MissesZero(index, n)
    ensures i < n && Candidate(index, i) % n == r
  {
    hide PowerOfTwo;
    var m := HANDLE_MASK + 1 - index;
    if m >= n {
      i := StepsTo(index, n, r);
      assert Candidate(index, i) == index + i;
    } else if r == 0 {
      i := n - 1;
      assert Candidate(index, i) == n;
      ModShift(0, n, 1);
    } else if r < n - m {
      i := m + r - 1;
      assert Candidate(index, i) == r;
      ModSmall(r, n);
    } else {
      i := r - (n - m);
      assert Candidate(index, i) == HANDLE_MASK + 1 - n + r;
      HandleSpace();
      PowerDivides(n, HANDLE_MASK + 1);
      LastBlock(HANDLE_MASK + 1, n, r);
    }
  }

  lemma {:induction false} ScanMisses(index: nat, n: nat, i: nat)
    requires PowerOfTwo(n) && 1 < n <= HANDLE_MASK + 1 && 1 <= index <= HANDLE_MASK + 1 && i < n
    requires MissesZero(index, n)
    ensures Candidate(index, i) % n != 0
  {
    hide PowerOfTwo;
    var c := Candidate(index, i);
    if index + i <= HANDLE_MASK {
      var r := c - (HANDLE_MASK + 1 - n);
      HandleSpace();
      PowerDivides(n, HANDLE_MASK + 1);
      LastBlock(HANDLE_MASK + 1, n, r);
    } else {
      assert 1 <= c < n;
      ModSmall(c, n);
    }
  }

  // ---- The table ----

  predicate InSlot(slot: seq<Option<Context>>, c: Context)
    requires |slot| > 0
  {
    slot[c.handle % |slot|] == Some(c)
  }

  /** The slots hold exactly the live services, each where its handle says. */
  ghost predicate Holds(slot: seq<Option<Context>>, harbor: nat, live: map<Handle, nat>) {
    && |slot| > 0
    && (forall i :: 0 <= i < |slot| && slot[i].Some? ==>
          slot[i].value.handle % |slot| == i && slot[i].value.handle in live && live[slot[i].value.handle] == slot[i].value.id)
    && (forall h :: h in live ==> harbor < h <= harbor + HANDLE_MASK && InSlot(slot, Context(live[h], h)))
  }

  lemma {:induction false} HoldsAdded(slot: seq<Option<Context>>, harbor: nat, live: map<Handle, nat>, c: Context)
    requires Holds(slot, harbor, live) && harbor < c.handle <= harbor + HANDLE_MASK && slot[c.handle % |slot|].None?
    ensures c.handle !in live
    ensures Holds(slot[c.handle % |slot| := Some(c)], harbor, live[c.handle := c.id])
  {
    assert c.handle in live ==> InSlot(slot, Context(live[c.handle], c.handle));
    var slot' := slot[c.handle % |slot| := Some(c)];
    forall h | h in live ensures h % |slot| != c.handle % |slot| && InSlot(slot', Context(live[h], h)) {
      assert InSlot(slot, Context(live[h], h));
    }
  }

  lemma {:induction false} HoldsRemoved(slot: seq<Option<Context>>, harbor: nat, live: map<Handle, nat>, c: Context)
    requires Holds(slot, harbor, live) && InSlot(slot, c)
    ensures Holds(slot[c.handle % |slot| := None], harbor, live - {c.handle})
  {
    var slot' := slot[c.handle % |slot| := None];
    forall h | h in live && h != c.handle ensures InSlot(slot', Context(live[h], h)) {
      assert InSlot(slot, Context(live[h], h));
    }
  }

  /** `slot'` is what the doubling loop has built from the first `i` slots. */
  ghost predicate Rehashed(slot: seq<Option<Context>>, slot': seq<Option<Context>>, i: nat) {
    && |slot| > 0 && |slot'| == 2 * |slot| && i <= |slot|
    && (forall j :: 0 <= j < |slot| ==> Moved(slot, slot', j, i))
  }

  /** Places `j` and `j + |slot|` share what was in slot `j`. */
  ghost predicate Moved(slot: seq<Option<Context>>, slot': seq<Option<Context>>, j: nat, i: nat)
    requires j < |slot| && |slot'| == 2 * |slot|
  {
    if j < i && slot[j].Some? then
      var h := slot[j].value.handle;
      h % |slot'| in {j, j + |slot|}
      && slot'[j] == (if h % |slot'| == j then slot[j] else None)
      && slot'[j + |slot|] == (if h % |slot'| == j then None else slot[j])
    else slot'[j].None? && slot'[j + |slot|].None?
  }

  /** Moving slot `i` finds its new place empty. */
  lemma {:induction false} RehashNext(slot: seq<Option<Context>>, slot': seq<Option<Context>>, i: nat)
    requires Rehashed(slot, slot', i) && i < |slot| && (slot[i].Some? ==> slot[i].value.handle % |slot| == i)
    ensures slot[i].None? ==> Rehashed(slot, slot', i + 1)
    ensures slot[i].Some? ==> var hash := slot[i].value.handle % |slot'|;
                              slot'[hash].None? && Rehashed(slot, slot'[hash := slot[i]], i + 1)
  {
    assert Moved(slot, slot', i, i);
    if slot[i].Some? {
      ModDouble(slot[i].value.handle, |slot|);
    }
    var k, hash := i + 1, if slot[i].Some? then slot[i].value.handle % |slot'| else 0;
    var next := if slot[i].Some? then slot'[hash := slot[i]] else slot';
    forall j: nat | j < |slot| ensures Moved(slot, next, j, k) {
      assert Moved(slot, slot', j, i);
    }
  }

  lemma {:induction false} HoldsRehashed(slot: seq<Option<Context>>, slot': seq<Option<Context>>, harbor: nat, live: map<Handle, nat>)
    requires Holds(slot, harbor, live) && Rehashed(slot, slot', |slot|)
    ensures Holds(slot', harbor, live)
  {
    forall i | 0 <= i < |slot'| && slot'[i].Some?
      ensures slot'[i].value.handle % |slot'| == i && slot'[i].value.handle in live && live[slot'[i].value.handle] == slot'[i].value.id
    {
      var j := if i < |slot| then i else i - |slot|;
      assert Moved(slot, slot', j, |slot|);
    }
    forall h | h in live ensures InSlot(slot', Context(live[h], h)) {
      assert InSlot(slot, Context(live[h], h));
      assert Moved(slot, slot', h % |slot|, |slot|);
    }
  }

  /** A doubled table cannot be full to a scan: the two places that share slot 1 are both visited. */
  lemma {:induction false} RoomAfterDoubling(slot: seq<Option<Context>>, slot': seq<Option<Context>>)
    requires Rehashed(slot, slot', |slot|) && |slot| >= 2
    ensures slot'[1].None? || slot'[1 + |slot|].None?
  {
    assert Moved(slot, slot', 1, |slot|);
  }

  /** Not all handles can be live while the table is below its largest size. */
  lemma {:induction false} NotAllLive(slot: seq<Option<Context>>, harbor: nat, live: map<Handle, nat>)
    requires Holds(slot, harbor, live)
    ensures harbor + 1 !in live || harbor + 1 + |slot| !in live
  {
    var n := |slot|;
    var a, b := harbor + 1, harbor + 1 + n;
    ModShift(a, n, 1);
    assert a in live ==> InSlot(slot, Context(live[a], a));
    assert b in live ==> InSlot(slot, Context(live[b], b));
  }

  /** At the largest size a failed scan means that every handle is live. */
  lemma {:induction false} AllLive(slot: seq<Option<Context>>, harbor: nat, live: map<Handle, nat>, h: nat)
    requires Holds(slot, harbor, live) && |slot| == HANDLE_MASK + 1 && harbor % |slot| == 0 && 1 <= h <= HANDLE_MASK
    requires slot[h].Some?
    ensures harbor + h in live
  {
    var n, c := |slot|, slot[h].value.handle;
    assert InSlot(slot, Context(live[c], c));
    assert harbor == (harbor / n) * n;
    ModShift(c - harbor, n, harbor / n);
    ModSmall(c - harbor, n);
  }

  lemma {:induction false} HarborMod(harbor: nat, n: nat, h: nat)
    requires PowerOfTwo(n) && n <= HANDLE_MASK + 1 && harbor % (HANDLE_MASK + 1) == 0
    ensures harbor % n == 0 && (harbor + h) % n == h % n
  {
    HandleSpace();
    PowerDivides(n, HANDLE_MASK + 1);
    var a, b := harbor / (HANDLE_MASK + 1), (HANDLE_MASK + 1) / n;
    assert harbor == (a * b) * n by {
      assert harbor == a * (b * n);
    }
    ModShift(0, n, a * b);
    ModShift(h, n, a * b);
  }

  /** `low` is the first candidate whose slot is free. */
  ghost predicate FirstFree(slot: seq<Option<Context>>, index: nat, low: Handle) {
    && 1 <= low <= HANDLE_MASK && |slot| > 0 && slot[low % |slot|].None?
    && exists i :: 0 <= i < |slot| && low == Candidate(index, i)
                   && forall j :: 0 <= j < i ==> slot[Candidate(index, j) % |slot|].Some?
  }

  /** Every slot a scan looks at is taken. */
  ghost predicate ScanFails(slot: seq<Option<Context>>, index: nat) {
    && |slot| > 0 && (forall r :: 1 <= r < |slot| ==> slot[r].Some?)
    && (slot[0].Some? || MissesZero(index, |slot|))
  }

  lemma {:induction false} FreeIsSeen(slot: seq<Option<Context>>, index: nat, low: Handle)
    requires FirstFree(slot, index, low) && PowerOfTwo(|slot|) && 1 < |slot| <= HANDLE_MASK + 1 && 1 <= index <= HANDLE_MASK + 1
    ensures !ScanFails(slot, index)
  {
    hide PowerOfTwo;
    var i :| 0 <= i < |slot| && low == Candidate(index, i);
    if MissesZero(index, |slot|) { ScanMisses(index, |slot|, i); }
  }

  class Storage {
    const harbor: nat
    var handleIndex: nat
    var slot: array<Option<Context>>
    const names: HandleNames.Names
    ghost var live: map<Handle, nat>

    ghost predicate TableValid()
      reads this, slot
    {
      && harbor % (HANDLE_MASK + 1) == 0
      && 1 <= handleIndex <= HANDLE_MASK + 1
      && DEFAULT_SLOT_SIZE <= slot.Length <= HANDLE_MASK + 1 && PowerOfTwo(slot.Length)
      && Holds(slot[..], harbor, live)
    }

    ghost predicate Valid()
      reads this, slot, names, names.name
    {
      TableValid() && names.Valid()
    }

    constructor (harborNumber: nat)
      requires harborNumber < 0x100
      ensures Valid() && live == map[] && names.Contents() == [] && harbor == harborNumber * 0x100_0000
      ensures fresh(slot) && fresh(names) && fresh(names.name) && slot.Length == DEFAULT_SLOT_SIZE && handleIndex == 1
    {
      harbor := harborNumber * 0x100_0000;
      handleIndex := 1;
      slot := new Option<Context>[DEFAULT_SLOT_SIZE](_ => None);
      names := new HandleNames.Names();
      live := map[];
      new;
      ModIs(harbor, HANDLE_MASK + 1, harborNumber, 0);
      assert PowerOfTwo(2) && PowerOfTwo(4);
    }

    /** The inner loop of skynet_handle_register: the first candidate whose slot is free. */
    method Scan() returns (found: Option<Handle>)
      requires TableValid()
      ensures found.Some? ==> FirstFree(slot[..], handleIndex, found.value)
      ensures found.None? <==> ScanFails(slot[..], handleIndex)
    {
      var handle := handleIndex;
      var i := 0;
      while i < slot.Length
        invariant 0 <= i <= slot.Length && 1 <= handle <= HANDLE_MASK + 1
        invariant i < slot.Length ==> (if handle > HANDLE_MASK then 1 else handle) == Candidate(handleIndex, i)
        invariant forall j :: 0 <= j < i ==> slot[Candidate(handleIndex, j) % slot.Length].Some?
      {
        if handle > HANDLE_MASK {
          handle := 1;
        }
        var hash := handle % slot.Length;
        if slot[hash].None? {
          assert forall j :: 0 <= j < i ==> slot[..][Candidate(handleIndex, j) % |slot[..]|].Some?;
          FreeIsSeen(slot[..], handleIndex, handle);
          return Some(handle);
        }
        i, handle := i + 1, handle + 1;
      }
      forall r | 1 <= r < slot.Length ensures slot[r].Some? {
        var j := ScanCovers(handleIndex, slot.Length, r);
        assert slot[Candidate(handleIndex, j) % slot.Length].Some?;
      }
      if !MissesZero(handleIndex, slot.Length) {
        var j := ScanCovers(handleIndex, slot.Length, 0);
        assert slot[Candidate(handleIndex, j) % slot.Length].Some?;
      }
      return None;
    }

    /** The rehash: no two services ever claim the same new slot. */
    method Double()
      requires TableValid() && 2 * slot.Length - 1 <= HANDLE_MASK
      modifies this`slot
      ensures TableValid() && fresh(slot) && slot.Length == 2 * old(slot.Length)
      ensures Rehashed(old(slot[..]), slot[..], old(slot.Length))
    {
      var n := slot.Length;
      var newSlot := new Option<Context>[n * 2](_ => None);
      ghost var before := slot[..];
      for i := 0 to n
        invariant slot == old(slot) && slot[..] == before && |before| == n && fresh(newSlot) && newSlot.Length == 2 * n
        invariant Rehashed(before, newSlot[..], i)
      {
        ghost var was := newSlot[..];
        RehashNext(before, was, i);
        if slot[i].Some? {
          var hash := slot[i].value.handle % (n * 2);
          assert newSlot[hash] == None;
          newSlot[hash] := slot[i];
          assert newSlot[..] == was[hash := before[i]];
        }
      }
      slot := newSlot;
      HoldsRehashed(before, slot[..], harbor, live);
      DoublePower(n);
    }

    /** A free handle, after doubling the table at most once. There is none exactly when all 2^24 - 1
        handles of the harbor are live; the program then fails its assertion. */
    method FreeHandle() returns (found: Option<Handle>)
      requires TableValid()
      modifies this`slot
      ensures TableValid() && (slot == old(slot) || fresh(slot))
      ensures if ScanFails(old(slot[..]), handleIndex) && 2 * old(slot.Length) - 1 <= HANDLE_MASK
              then slot.Length == 2 * old(slot.Length) else slot == old(slot)
      ensures found.Some? ==> FirstFree(slot[..], handleIndex, found.value)
      ensures found.None? <==> forall h :: harbor < h <= harbor + HANDLE_MASK ==> h in live
    {
      var n := slot.Length;
      found := Scan();
      hide PowerOfTwo, Holds;
      if found.Some? {
        HarborMod(harbor, n, found.value);
        HoldsAdded(slot[..], harbor, live, Context(0, harbor + found.value));
        return;
      }
      HarborMod(harbor, n, 0);
      if 2 * n - 1 > HANDLE_MASK {
        OnlyLargest(n);
        forall h | harbor < h <= harbor + HANDLE_MASK ensures h in live {
          AllLive(slot[..], harbor, live, h - harbor);
        }
        return;
      }
      NotAllLive(slot[..], harbor, live);
      ghost var before := slot[..];
      Double();
      RoomAfterDoubling(before, slot[..]);
      assert slot[1].None? || slot[1 + n].None?;
      found := Scan();
      assert found.Some?;
    }

    /** A new handle is nonzero, belongs to this harbor and differs from every live one; nothing else
        changes. */
    method Register(id: nat) returns (handle: Option<Handle>)
      requires Valid()
      modifies this, slot
      ensures Valid() && names.Contents() == old(names.Contents())
      ensures slot == old(slot) || fresh(slot)
      ensures if ScanFails(old(slot[..]), old(handleIndex)) && 2 * old(slot.Length) - 1 <= HANDLE_MASK
              then slot.Length == 2 * old(slot.Length) else slot == old(slot)
      ensures handle.None? <==> forall h :: harbor < h <= harbor + HANDLE_MASK ==> h in old(live)
      ensures handle.None? ==> live == old(live) && handleIndex == old(handleIndex)
      ensures handle.Some? ==> handle.value !in old(live) && harbor < handle.value <= harbor + HANDLE_MASK
      ensures handle.Some? && slot == old(slot) ==> FirstFree(old(slot[..]), old(handleIndex), handle.value - harbor)
      ensures handle.Some? ==> live == old(live)[handle.value := id] && handleIndex == handle.value - harbor + 1
    {
      var found := FreeHandle();
      if found.None? {
        return None;
      }
      hide PowerOfTwo, Holds;
      var low := found.value;
      HarborMod(harbor, slot.Length, low);
      HoldsAdded(slot[..], harbor, live, Context(id, harbor + low));
      slot[low % slot.Length] := Some(Context(id, harbor + low));
      handleIndex := low + 1;
      live := live[harbor + low := id];
      return Some(harbor + low);
    }

    /** Succeeds exactly for a live handle and removes it with all its names. */
    method Retire(handle: Handle) returns (ret: bool)
      requires Valid()
      modifies this`live, slot, names`nameCount, names.name
      ensures Valid()
      ensures ret <==> handle in old(live)
      ensures live == old(live) - {handle}
      ensures names.Contents() == if ret then HandleNames.Without(old(names.Contents()), handle) else old(names.Contents())
    {
      var hash := handle % slot.Length;
      var ctx := slot[hash];
      assert handle in live ==> InSlot(slot[..], Context(live[handle], handle));
      if ctx.Some? && ctx.value.handle == handle {
        HoldsRemoved(slot[..], harbor, live, ctx.value);
        slot[hash] := None;
        live := live - {handle};
        names.Retire(handle);
        return true;
      }
      return false;
    }

    method Grab(handle: Handle) returns (result: Option<nat>)
      requires Valid()
      ensures result == if handle in live then Some(live[handle]) else None
    {
      var ctx := slot[handle % slot.Length];
      assert handle in live ==> InSlot(slot[..], Context(live[handle], handle));
      if ctx.Some? && ctx.value.handle == handle {
        return Some(ctx.value.id);
      }
      return None;
    }
  }

  lemma {:induction false} OnlyLargest(n: nat)
    requires PowerOfTwo(n) && n <= HANDLE_MASK + 1 && 2 * n - 1 > HANDLE_MASK
    ensures n == HANDLE_MASK + 1
  {
    HandleSpace();
    PowerDivides(n, HANDLE_MASK + 1);
    hide PowerOfTwo;
    var c := (HANDLE_MASK + 1) / n;
    assert HANDLE_MASK + 1 == c * n;
    if c >= 2 { MulMono(2, c, n); }
  }
}
