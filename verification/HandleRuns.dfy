/**
 A history of the handle table of skynet_handle.c after which a scan finds nothing although slot 0 is
 free: three services stay, and a fourth comes and goes until the 24-bit counter is about to wrap.
 */
module HandleRuns {

  import opened Wrappers
  import opened HandleTable

  const LAST_START: nat := 0xff_fffd

  function FirstLive(k: nat): map<Handle, nat> {
    if k == 0 then map[] else FirstLive(k - 1)[k := k]
  }

  lemma {:induction false} FirstLiveIs(k: nat, h: Handle)
    ensures h in FirstLive(k) <==> 1 <= h <= k
    ensures h in FirstLive(k) ==> FirstLive(k)[h] == h
  {
    if k > 0 { FirstLiveIs(k - 1, h); }
  }

  /** A four-slot table with the handles 1 to `k` live. */
  ghost predicate Lives(s: Storage, k: nat)
    reads s, s.slot, s.names, s.names.name
  {
    s.Valid() && s.harbor == 0 && s.slot.Length == 4 && s.live == FirstLive(k)
  }

  lemma {:induction false} SlotsOf(slot: seq<Option<Context>>, k: nat)
    requires |slot| == 4 && k <= 3 && Holds(slot, 0, FirstLive(k))
    ensures forall r :: 0 <= r < 4 ==> (slot[r].Some? <==> 1 <= r <= k)
  {
    forall r | 0 <= r < 4 ensures slot[r].Some? <==> 1 <= r <= k {
      FirstLiveIs(k, r);
      assert 1 <= r <= k ==> InSlot(slot, Context(r, r));
      if slot[r].Some? { FirstLiveIs(k, slot[r].value.handle); }
    }
  }

  /** The next handle while slots 1 to `k` are taken. */
  lemma {:induction false} NextHandle(slot: seq<Option<Context>>, index: nat, low: Handle, k: nat)
    requires |slot| == 4 && k <= 3 && FirstFree(slot, index, low) && 1 <= index && index + 3 <= HANDLE_MASK
    requires forall r :: 0 <= r < 4 ==> (slot[r].Some? <==> 1 <= r <= k)
    ensures k < 3 && index == k + 1 ==> low == index
    ensures k == 3 && index == 4 ==> low == 4
    ensures k == 3 && index % 4 == 1 ==> low == index + 3
  {
    var i :| 0 <= i < 4 && low == Candidate(index, i) && forall j :: 0 <= j < i ==> slot[Candidate(index, j) % 4].Some?;
    assert low == index + i;
    if i > 0 { assert slot[Candidate(index, 0) % 4].Some?; }
  }

  lemma {:induction false} Room(slot: seq<Option<Context>>, index: nat, k: nat)
    requires |slot| == 4 && k <= 3 && forall r :: 0 <= r < 4 ==> (slot[r].Some? <==> 1 <= r <= k)
    requires index + 3 <= HANDLE_MASK
    ensures !ScanFails(slot, index)
  {
    assert k < 3 ==> slot[3].None?;
    assert slot[0].None?;
  }

  /** One registration in such a table. */
  method Next(s: Storage, k: nat, id: nat) returns (h: Handle)
    requires Lives(s, k) && k <= 3 && s.handleIndex + 3 <= HANDLE_MASK
    requires s.handleIndex == k + 1 || (k == 3 && s.handleIndex % 4 == 1)
    modifies s, s.slot
    ensures s.Valid() && s.slot == old(s.slot) && s.names.Contents() == old(s.names.Contents())
    ensures h == if k < 3 || old(s.handleIndex) == 4 then old(s.handleIndex) else old(s.handleIndex) + 3
    ensures s.live == FirstLive(k)[h := id] && s.handleIndex == h + 1
  {
    hide Holds, PowerOfTwo, FirstFree, ScanFails;
    SlotsOf(s.slot[..], k);
    Room(s.slot[..], s.handleIndex, k);
    ghost var slots, index := s.slot[..], s.handleIndex;
    FirstLiveIs(k, 5);
    var r := s.Register(id);
    assert r.Some?;
    NextHandle(slots, index, r.value, k);
    h := r.value;
  }

  /** The fourth service comes and goes once. */
  method ComeAndGo(s: Storage)
    requires Lives(s, 3) && s.handleIndex + 3 <= HANDLE_MASK && (s.handleIndex == 4 || s.handleIndex % 4 == 1)
    modifies s, s.slot, s.names, s.names.name
    ensures Lives(s, 3) && s.slot == old(s.slot) && s.names.name == old(s.names.name)
    ensures s.handleIndex == if old(s.handleIndex) == 4 then 5 else old(s.handleIndex) + 4
  {
    hide Holds, PowerOfTwo, FirstFree, ScanFails, Storage.Valid, FirstLive;
    var h := Next(s, 3, 4);
    FirstLiveIs(3, h);
    ghost var live := FirstLive(3);
    var _ := s.Retire(h);
    assert live[h := 4] - {h} == live;
  }

  method FirstThree() returns (s: Storage)
    ensures fresh(s) && fresh(s.slot) && fresh(s.names) && fresh(s.names.name) && Lives(s, 3) && s.handleIndex == 4
  {
    s := new Storage(0);
    hide Holds, PowerOfTwo, FirstFree, ScanFails, Storage.Valid;
    var k := 0;
    while k < 3
      invariant 0 <= k <= 3 && fresh(s) && fresh(s.slot) && fresh(s.names) && fresh(s.names.name)
      invariant Lives(s, k) && s.handleIndex == k + 1
    {
      var h := Next(s, k, k + 1);
      k := k + 1;
    }
  }

  /** The state is reachable: the next registration doubles the table beside a free slot. */
  method MissedSlotZero() returns (s: Storage)
    ensures fresh(s) && Lives(s, 3) && s.slot[0].None? && ScanFails(s.slot[..], s.handleIndex)
  {
    hide Holds, PowerOfTwo, FirstFree, ScanFails, FirstLive;
    s := FirstThree();
    while s.handleIndex != LAST_START
      invariant fresh(s) && fresh(s.slot) && fresh(s.names) && fresh(s.names.name)
      invariant Lives(s, 3) && s.handleIndex <= LAST_START && (s.handleIndex == 4 || s.handleIndex % 4 == 1)
      decreases LAST_START - s.handleIndex
    {
      ComeAndGo(s);
    }
    Missed(s.slot[..]);
  }

  lemma {:induction false} Missed(slot: seq<Option<Context>>)
    requires |slot| == 4 && Holds(slot, 0, FirstLive(3))
    ensures slot[0].None? && ScanFails(slot, LAST_START)
  {
    SlotsOf(slot, 3);
  }
}
