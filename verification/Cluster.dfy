/**
 Requests between cluster nodes (lua-cluster.c): packed into one package or, from 32K on, into a
 header and parts; unpacked on the other side and, as clusteragent.lua does by session, put together
 again. Packages travel as `NetPack` cuts them.
 */
module Cluster {

  import opened Wrappers
  import opened Bytes
  import NetPack

  const MULTI_PART: nat := 0x8000
  const TWO31: int := 0x8000_0000
  const TWO32: int := 0x1_0000_0000

  datatype Address = Number(n: nat) | Name(name: seq<Byte>)

  datatype Request = Request(addr: Address, session: int, msg: seq<Byte>, push: bool)

  // ---- Packing ----

  /** What packrequest accepts: a positive C `int` as session, a 32-bit number or a name of 1 to 255
      bytes as address, a 32-bit size. */
  predicate Packable(r: Request) {
    && 0 < r.session < TWO31 && |r.msg| < TWO32
    && (match r.addr case Number(n) => n < TWO32 case Name(name) => 1 <= |name| <= 255)
  }

  function AddressBytes(a: Address): seq<Byte>
    requires a.Name? ==> |a.name| <= 255
  {
    match a
    case Number(n) => Little(n, 4)
    case Name(name) => [|name|] + name
  }

  /** The first byte of the first package. */
  function Kind(r: Request): Byte {
    (if r.addr.Name? then 0x80 else 0) + (if |r.msg| < MULTI_PART then 0 else if r.push then 0x41 else 1)
  }

  /** The session that goes over the wire: a small push has none. */
  function WireSession(r: Request): int {
    if |r.msg| < MULTI_PART && r.push then 0 else r.session
  }

  function First(r: Request): seq<Byte>
    requires Packable(r)
  {
    [Kind(r)] + AddressBytes(r.addr) + Little(WireSession(r), 4)
    + if |r.msg| < MULTI_PART then r.msg else Little(|r.msg|, 4)
  }

  function PartOf(session: nat, last: bool, data: seq<Byte>): seq<Byte> {
    [if last then 3 else 2] + Little(session, 4) + data
  }

  function Parts(session: nat, msg: seq<Byte>): seq<seq<Byte>>
    decreases |msg|
  {
    if |msg| <= MULTI_PART then [PartOf(session, true, msg)]
    else [PartOf(session, false, msg[..MULTI_PART])] + Parts(session, msg[MULTI_PART..])
  }

  /** All packages of a request, without their two size bytes. */
  function Packages(r: Request): seq<seq<Byte>>
    requires Packable(r)
  {
    if |r.msg| < MULTI_PART then [First(r)] else [First(r)] + Parts(r.session, r.msg)
  }

  /** Packages as they go over the wire. */
  function Wire(ps: seq<seq<Byte>>): seq<Byte>
    requires forall i :: 0 <= i < |ps| ==> |ps[i]| < 0x1_0000
  {
    if ps == [] then [] else NetPack.Header(|ps[0]|) + ps[0] + Wire(ps[1..])
  }

  lemma {:induction false} WireSplits(ps: seq<seq<Byte>>)
    requires forall i :: 0 <= i < |ps| ==> |ps[i]| < 0x1_0000
    ensures NetPack.Split(Wire(ps)) == NetPack.Cut(ps, [])
  {
    if ps == [] {
      NetPack.SplitNothing();
    } else {
      WireSplits(ps[1..]);
      NetPack.SplitFirst(ps[0], Wire(ps[1..]));
      assert ps == [ps[0]] + ps[1..];
    }
  }

  /** Every package fits its size bytes: the assertion of fill_header holds. */
  lemma {:induction false} PartsFit(session: nat, msg: seq<Byte>)
    ensures forall i :: 0 <= i < |Parts(session, msg)| ==> |Parts(session, msg)[i]| <= MULTI_PART + 5
    decreases |msg|
  {
    if |msg| > MULTI_PART {
      PartsFit(session, msg[MULTI_PART..]);
    }
  }

  lemma {:induction false} PackagesFit(r: Request)
    requires Packable(r)
    ensures forall i :: 0 <= i < |Packages(r)| ==> |Packages(r)[i]| < 0x1_0000
  {
    if |r.msg| >= MULTI_PART { PartsFit(r.session, r.msg); }
  }

  /** `packreq_multi`: as many parts as the division says, the last one marked. */
  method PackMulti(session: nat, msg: seq<Byte>) returns (parts: seq<seq<Byte>>)
    requires |msg| >= MULTI_PART
    ensures parts == Parts(session, msg) && |parts| == (|msg| - 1) / MULTI_PART + 1
  {
    var part := (|msg| - 1) / MULTI_PART + 1;
    var ptr, sz := msg, |msg|;
    parts := [];
    for i := 0 to part
      invariant sz == |ptr| && |parts| == i
      invariant i < part ==> sz == |msg| - i * MULTI_PART && sz > 0 && parts + Parts(session, ptr) == Parts(session, msg)
      invariant i == part ==> parts == Parts(session, msg)
    {
      var s, last := sz, true;
      if sz > MULTI_PART {
        s, last := MULTI_PART, false;
      }
      parts := parts + [PartOf(session, last, ptr[..s])];
      assert last ==> ptr[..s] == ptr;
      sz := sz - s;
      ptr := ptr[s..];
    }
  }

  /** `packrequest`: the packages and the next session, which goes round from 2^31 - 1 to 1. */
  method PackRequest(r: Request) returns (packed: Option<(seq<seq<Byte>>, nat)>)
    requires -TWO31 <= r.session < TWO31 && |r.msg| < TWO32 && (r.addr.Number? ==> r.addr.n < TWO32)
    ensures packed.Some? <==> Packable(r)
    ensures packed.Some? ==> packed.value.0 == Packages(r) && forall i :: 0 <= i < |packed.value.0| ==> |packed.value.0[i]| < 0x1_0000
    ensures packed.Some? ==> packed.value.1 == if r.session == TWO31 - 1 then 1 else r.session + 1
  {
    if r.session <= 0 {
      return None;
    }
    if r.addr.Name? && (|r.addr.name| < 1 || |r.addr.name| > 255) {
      return None;
    }
    var packages := [First(r)];
    var next := r.session + 1;
    if next > TWO31 - 1 {
      next := 1;
    }
    if |r.msg| >= MULTI_PART {
      var parts := PackMulti(r.session, r.msg);
      packages := packages + parts;
    }
    PackagesFit(r);
    return Some((packages, next));
  }

  // ---- Unpacking ----

  datatype Unpacked =
    | Trace(tag: seq<Byte>)
    | Small(addr: Address, session: nat, msg: seq<Byte>, push: bool)
    | Begin(addr: Address, session: nat, size: nat, push: bool)
    | Part(session: nat, data: seq<Byte>, padding: bool)
    | Bad

  function Word(s: seq<Byte>, at: nat): nat
    requires at + 4 <= |s|
  {
    FromLittle(s[at..at + 4])
  }

  /** `lunpackrequest`. */
  function Unpack(s: seq<Byte>): Unpacked {
    if s == [] then Bad
    else if s[0] == 0 then
      if |s| < 9 then Bad else Small(Number(Word(s, 1)), Word(s, 5), s[9..], Word(s, 5) == 0)
    else if s[0] == 1 || s[0] == 0x41 then
      if |s| != 13 then Bad else Begin(Number(Word(s, 1)), Word(s, 5), Word(s, 9), s[0] == 0x41)
    else if s[0] == 2 || s[0] == 3 then
      if |s| < 5 then Bad else Part(Word(s, 1), s[5..], s[0] == 2)
    else if s[0] == 4 then Trace(s[1..])
    else if s[0] == 0x80 then
      if |s| < 2 || |s| < s[1] as int + 6 then Bad
      else var n: nat := s[1]; Small(Name(s[2..2 + n]), Word(s, n + 2), s[n + 6..], Word(s, n + 2) == 0)
    else if s[0] == 0x81 || s[0] == 0xc1 then
      if |s| < 2 || |s| < s[1] as int + 10 then Bad
      else var n: nat := s[1]; Begin(Name(s[2..2 + n]), Word(s, n + 2), Word(s, n + 6), s[0] == 0xc1)
    else Bad
  }

  lemma {:induction false} WordIs(a: seq<Byte>, n: nat, b: seq<Byte>)
    requires n < TWO32
    ensures Word(a + Little(n, 4) + b, |a|) == n
  {
    Widths();
    LittleRoundTrip(n, 4);
    assert (a + Little(n, 4) + b)[|a|..|a| + 4] == Little(n, 4);
  }

  lemma {:induction false} PartUnpacks(session: nat, last: bool, data: seq<Byte>)
    requires session < TWO32
    ensures Unpack(PartOf(session, last, data)) == Part(session, data, !last)
  {
    var b: Byte := if last then 3 else 2;
    WordIs([b], session, data);
    assert PartOf(session, last, data)[5..] == data;
  }

  function AddressLength(a: Address): nat {
    if a.Number? then 4 else 1 + |a.name|
  }

  /** Where the fields of a first package are. */
  lemma {:induction false} FirstFields(r: Request)
    requires Packable(r)
    ensures var s, h := First(r), 1 + AddressLength(r.addr);
            && |s| == h + 4 + (if |r.msg| < MULTI_PART then |r.msg| else 4)
            && s[0] == Kind(r) && Word(s, h) == WireSession(r)
            && (|r.msg| < MULTI_PART ==> s[h + 4..] == r.msg)
            && (|r.msg| >= MULTI_PART ==> Word(s, h + 4) == |r.msg|)
            && (r.addr.Number? ==> Word(s, 1) == r.addr.n)
            && (r.addr.Name? ==> s[1] == |r.addr.name| && s[2..h] == r.addr.name)
  {
    var tail := if |r.msg| < MULTI_PART then r.msg else Little(|r.msg|, 4);
    var head := [Kind(r)] + AddressBytes(r.addr);
    var s := First(r);
    assert s == head + Little(WireSession(r), 4) + tail;
    WordIs(head, WireSession(r), tail);
    assert s[|head| + 4..] == tail;
    if |r.msg| >= MULTI_PART {
      WordIs(head + Little(WireSession(r), 4), |r.msg|, []);
      assert head + Little(WireSession(r), 4) + Little(|r.msg|, 4) + [] == s;
    }
    FirstAddress(r, s, Little(WireSession(r), 4) + tail);
    hide Word, Little;
  }

  /** The first package says whose request it is, and carries it whole or announces its size. */
  lemma {:induction false} FirstUnpacks(r: Request)
    requires Packable(r)
    ensures Unpack(First(r)) == if |r.msg| < MULTI_PART then Small(r.addr, WireSession(r), r.msg, r.push)
                                else Begin(r.addr, r.session, |r.msg|, r.push)
  {
    FirstFields(r);
    hide Word, AddressBytes, First;
  }

  lemma {:induction false} FirstAddress(r: Request, s: seq<Byte>, rest: seq<Byte>)
    requires Packable(r) && s == [Kind(r)] + AddressBytes(r.addr) + rest
    ensures s[0] == Kind(r)
    ensures r.addr.Number? ==> |AddressBytes(r.addr)| == 4 && |s| >= 5 && Word(s, 1) == r.addr.n
    ensures r.addr.Name? ==> |AddressBytes(r.addr)| == 1 + |r.addr.name| && |s| >= 2 + |r.addr.name| && s[1] == |r.addr.name| && s[2..2 + |r.addr.name|] == r.addr.name
  {
    if r.addr.Number? {
      WordIs([Kind(r)], r.addr.n, rest);
    } else {
      assert s[2..2 + |r.addr.name|] == r.addr.name;
    }
  }

  // ---- The bytes of the packages ----

  /** Four bytes, least significant first. */
  function Four(n: nat): seq<Byte> {
    [n % 256, n / 0x100 % 256, n / 0x1_0000 % 256, n / 0x100_0000 % 256]
  }

  /** The first package: kind, address, session, and the message or its size. */
  lemma {:induction false} FirstLayout(r: Request)
    requires Packable(r)
    ensures var small := |r.msg| < MULTI_PART;
            var tail := if small then r.msg else Four(|r.msg|);
            var session := if small && r.push then [0, 0, 0, 0] else Four(r.session);
            First(r) == match r.addr
              case Number(n) => [if small then 0 else if r.push then 0x41 else 1] + Four(n) + session + tail
              case Name(name) =>
                [if small then 0x80 else if r.push then 0xc1 else 0x81, |name|] + name + session + tail
  {
    LittleShort(0);
    LittleShort(r.session);
    LittleShort(|r.msg|);
    if r.addr.Number? { LittleShort(r.addr.n); }
    hide Little;
    if r.addr.Name? {
      assert [Kind(r)] + ([|r.addr.name|] + r.addr.name) == [Kind(r), |r.addr.name|] + r.addr.name;
    }
  }

  /** A part: 3 on the last and 2 on the others, session and data. */
  lemma {:induction false} PartLayout(session: nat, last: bool, data: seq<Byte>)
    ensures PartOf(session, last, data) == [if last then 3 else 2] + Four(session) + data
  {
    LittleShort(session);
  }
}
