/**
 The packer of lua-seri.c: values are written into a chain of 128-byte blocks, which is then copied
 into one buffer. The chain is shown to be plain appending, and packing to append `Encode`.
 */
module SerializeBuffer {

  import opened Bytes
  import opened Serialize

  const BLOCK_SIZE: nat := 128

  /** `TooLong`: the bytes are more than the `int` that counts them can say, and what is copied out of the
      blocks is not what was packed. */
  datatype Packed = Packed(bytes: seq<Byte>) | TooDeep | TooLong

  function Concat(blocks: seq<seq<Byte>>): seq<Byte> {
    if blocks == [] then [] else Concat(blocks[..|blocks| - 1]) + blocks[|blocks| - 1]
  }

  lemma {:induction false} ConcatPush(blocks: seq<seq<Byte>>, b: seq<Byte>)
    ensures Concat(blocks + [b]) == Concat(blocks) + b
  {
    assert (blocks + [b])[..|blocks|] == blocks;
  }

  lemma {:induction false} ConcatLength(blocks: seq<seq<Byte>>)
    requires forall i :: 0 <= i < |blocks| ==> |blocks[i]| == BLOCK_SIZE
    ensures |Concat(blocks)| == BLOCK_SIZE * |blocks|
  {
    if blocks != [] { ConcatLength(blocks[..|blocks| - 1]); }
  }

  /** The block chain: `full` are the blocks before `current`, of which `ptr` bytes are used. */
  class WriteBlock {
    var full: seq<seq<Byte>>
    var current: seq<Byte>
    var len: nat
    var ptr: nat

    ghost predicate Valid()
      reads this
    {
      && (forall i :: 0 <= i < |full| ==> |full[i]| == BLOCK_SIZE)
      && |current| == BLOCK_SIZE && ptr <= BLOCK_SIZE
      && len == |Contents()|
    }

    ghost function Contents(): seq<Byte>
      reads this
    {
      if ptr <= |current| then Concat(full) + current[..ptr] else []
    }

    constructor ()
      ensures Valid() && Contents() == []
    {
      full, current := [], seq(BLOCK_SIZE, _ => 0);
      len, ptr := 0, 0;
    }

    lemma {:induction false} Counted()
      requires Valid()
      ensures len == |Contents()|
    {
    }

    /** A fresh block behind a full one. */
    method Extend()
      requires Valid() && ptr == BLOCK_SIZE
      modifies this`full, this`current, this`ptr
      ensures Valid() && ptr == 0 && Contents() == old(Contents())
    {
      ConcatPush(full, current);
      assert current[..ptr] == current;
      full := full + [current];
      current := seq(BLOCK_SIZE, _ => 0);
      ptr := 0;
      assert Contents() == Concat(full);
    }

    /** memcpy into the current block. */
    method Fill(piece: seq<Byte>)
      requires Valid() && ptr + |piece| <= BLOCK_SIZE
      modifies this`current, this`ptr, this`len
      ensures Valid() && ptr == old(ptr) + |piece| && Contents() == old(Contents()) + piece
    {
      ghost var before := current[..ptr];
      current := current[..ptr] + piece + current[ptr + |piece|..];
      ptr := ptr + |piece|;
      len := len + |piece|;
      assert current[..ptr] == before + piece;
    }

    /** `wb_push`: however the bytes fall on block boundaries, they are appended. */
    method Push(bytes: seq<Byte>)
      requires Valid()
      modifies this
      ensures Valid() && Contents() == old(Contents()) + bytes
    {
      ghost var before := Contents();
      var buffer, sz := bytes, |bytes|;
      if ptr == BLOCK_SIZE {
        Extend();
      }
      while ptr > BLOCK_SIZE - sz
        invariant Valid() && sz == |buffer| && Contents() + buffer == before + bytes
        invariant ptr < BLOCK_SIZE
        decreases sz
      {
        var copy := BLOCK_SIZE - ptr;
        ghost var c := Contents();
        assert buffer == buffer[..copy] + buffer[copy..];
        Fill(buffer[..copy]);
        assert c + buffer == Contents() + buffer[copy..];
        buffer := buffer[copy..];
        sz := sz - copy;
        Extend();
      }
      Fill(buffer);
    }

    /** `seri`: copies whole blocks and the used part of the last one. */
    method Gather() returns (buffer: seq<Byte>)
      requires Valid()
      ensures buffer == Contents()
    {
      buffer := [];
      var left, b := len, 0;
      ConcatLength(full);
      while left > 0
        invariant 0 <= b <= |full| + 1 && left <= len
        invariant b <= |full| ==> left == len - BLOCK_SIZE * b && buffer == Concat(full[..b])
        invariant b > |full| ==> left == 0 && buffer == Contents()
      {
        assert b < |full| ==> full[..b + 1] == full[..b] + [full[b]];
        if b < |full| { ConcatPush(full[..b], full[b]); }
        assert full[..|full|] == full;
        var block := if b < |full| then full[b] else current;
        if left >= BLOCK_SIZE {
          buffer := buffer + block;
          left := left - BLOCK_SIZE;
          b := b + 1;
          assert b > |full| ==> current[..ptr] == current;
        } else {
          buffer := buffer + block[..left];
          return;
        }
      }
      assert full[..|full|] == full;
    }
  }

  // ---- Depth ----

  /** How far tables are nested; an empty table counts as none. */
  function Nesting(v: Value): nat {
    if v.Table? then Max(NestingAll(v.array_), NestingPairs(v.hash)) else 0
  }

  function NestingAll(vs: seq<Value>): nat {
    if vs == [] then 0 else Max(1 + Nesting(vs[0]), NestingAll(vs[1..]))
  }

  function NestingPairs(ps: seq<Pair>): nat {
    if ps == [] then 0 else Max(NestingPair(ps[0]), NestingPairs(ps[1..]))
  }

  function NestingPair(p: Pair): nat {
    Max(1 + Nesting(p.key), 1 + Nesting(p.value))
  }

  function Max(a: nat, b: nat): nat {
    if a > b then a else b
  }

  // ---- Prefixes of a table ----

  function PairBytes(ps: seq<Pair>): seq<Byte> {
    if ps == [] then [] else EncodePair(ps[0]) + PairBytes(ps[1..])
  }

  lemma {:induction false} PairBytesEnd(ps: seq<Pair>)
    ensures EncodePairs(ps) == PairBytes(ps) + [Combine(TYPE_NIL, 0)]
  {
    if ps != [] { PairBytesEnd(ps[1..]); }
  }

  lemma {:induction false} PairBytesNext(ps: seq<Pair>, p: Pair)
    ensures PairBytes(ps + [p]) == PairBytes(ps) + EncodePair(p)
    ensures NestingPairs(ps + [p]) == Max(NestingPairs(ps), NestingPair(p))
  {
    if ps != [] {
      assert (ps + [p])[1..] == ps[1..] + [p];
      PairBytesNext(ps[1..], p);
    } else {
      assert ps + [p] == [p] && [p][1..] == [];
    }
  }

  lemma {:induction false} EncodeAllNext(vs: seq<Value>, v: Value)
    ensures EncodeAll(vs + [v]) == EncodeAll(vs) + Encode(v)
    ensures NestingAll(vs + [v]) == Max(NestingAll(vs), 1 + Nesting(v))
  {
    hide Encode, Nesting;
    if vs != [] {
      assert (vs + [v])[1..] == vs[1..] + [v];
      EncodeAllNext(vs[1..], v);
    } else {
      assert vs + [v] == [v] && [v][1..] == [];
    }
  }

  lemma {:induction false} NestingAllAt(vs: seq<Value>, i: nat)
    requires i < |vs|
    ensures 1 + Nesting(vs[i]) <= NestingAll(vs)
  {
    if i > 0 { NestingAllAt(vs[1..], i - 1); }
  }

  lemma {:induction false} NestingPairsAt(ps: seq<Pair>, i: nat)
    requires i < |ps|
    ensures NestingPair(ps[i]) <= NestingPairs(ps)
  {
    if i > 0 { NestingPairsAt(ps[1..], i - 1); }
  }

  // ---- Packing ----

  lemma {:induction false} Joined(c: seq<Byte>, x: seq<Byte>, y: seq<Byte>, z: seq<Byte>)
    ensures (c + x) + y == c + (x + y)
    ensures ((c + x) + y) + z == c + (x + y + z)
  {
  }

  method PackInteger(wb: WriteBlock, v: int)
    requires wb.Valid()
    modifies wb
    ensures wb.Valid() && wb.Contents() == old(wb.Contents()) + EncodeInteger(v)
  {
    hide WriteBlock.Valid, WriteBlock.Contents, Little, Combine;
    if v == 0 {
      wb.Push([Combine(TYPE_NUMBER, 0)]);
    } else if !(-TWO31 <= v < TWO31) {
      wb.Push([Combine(TYPE_NUMBER, 6)]);
      wb.Push(Little(v % TWO64, 8));
    } else if v < 0 {
      wb.Push([Combine(TYPE_NUMBER, 4)]);
      wb.Push(Little(v % TWO32, 4));
    } else if v < 0x100 {
      wb.Push([Combine(TYPE_NUMBER, 1)]);
      wb.Push(Little(v, 1));
    } else if v < 0x1_0000 {
      wb.Push([Combine(TYPE_NUMBER, 2)]);
      wb.Push(Little(v, 2));
    } else {
      wb.Push([Combine(TYPE_NUMBER, 4)]);
      wb.Push(Little(v, 4));
    }
  }

  method PackText(wb: WriteBlock, s: seq<Byte>)
    requires wb.Valid()
    modifies wb
    ensures wb.Valid() && wb.Contents() == old(wb.Contents()) + EncodeText(s)
  {
    hide WriteBlock.Valid, WriteBlock.Contents, Little, Combine;
    ghost var before := wb.Contents();
    if |s| < MAX_COOKIE {
      wb.Push([Combine(TYPE_SHORT_STRING, |s|)]);
      if |s| > 0 {
        wb.Push(s);
      }
      Joined(before, [Combine(TYPE_SHORT_STRING, |s|)], s, []);
      assert |s| == 0 ==> [Combine(TYPE_SHORT_STRING, |s|)] + s == [Combine(TYPE_SHORT_STRING, |s|)];
    } else {
      if |s| < 0x1_0000 {
        wb.Push([Combine(TYPE_LONG_STRING, 2)]);
        wb.Push(Little(|s|, 2));
        Joined(before, [Combine(TYPE_LONG_STRING, 2)], Little(|s|, 2), s);
      } else {
        wb.Push([Combine(TYPE_LONG_STRING, 4)]);
        wb.Push(Little(|s|, 4));
        Joined(before, [Combine(TYPE_LONG_STRING, 4)], Little(|s|, 4), s);
      }
      wb.Push(s);
    }
  }

  /** `pack_one`: fails exactly when the value nests too deep for what is left of MAX_DEPTH. */
  method PackOne(wb: WriteBlock, v: Value, depth: nat) returns (ok: bool)
    requires wb.Valid()
    modifies wb
    ensures wb.Valid()
    ensures ok <==> depth + Nesting(v) <= MAX_DEPTH
    ensures ok ==> wb.Contents() == old(wb.Contents()) + Encode(v)
    decreases v, 1
  {
    if depth > MAX_DEPTH {
      return false;
    }
    hide WriteBlock.Valid, WriteBlock.Contents, EncodeInteger, EncodeText, EncodeSize, EncodeAll, EncodePairs, NestingAll, NestingPairs;
    ok := true;
    ghost var before := wb.Contents();
    match v
    case Nil => wb.Push([Combine(TYPE_NIL, 0)]);
    case Boolean(b) => wb.Push([Combine(TYPE_BOOLEAN, if b then 1 else 0)]);
    case Integer(n) => PackInteger(wb, n);
    case Real(bits) => wb.Push([Combine(TYPE_NUMBER, 8)]); wb.Push(bits); Joined(before, [Combine(TYPE_NUMBER, 8)], bits, []);
    case Pointer(bits) => wb.Push([Combine(TYPE_USERDATA, 0)]); wb.Push(bits); Joined(before, [Combine(TYPE_USERDATA, 0)], bits, []);
    case Text(s) => PackText(wb, s);
    case Table(a, h) =>
      ok := PackArray(wb, a, depth + 1);
      if ok {
        ok := PackHash(wb, h, depth + 1);
        Joined(before, EncodeSize(|a|), EncodeAll(a), EncodePairs(h));
      }
  }

  /** `wb_table_array`. */
  method PackArray(wb: WriteBlock, a: seq<Value>, depth: nat) returns (ok: bool)
    requires wb.Valid() && 1 <= depth <= MAX_DEPTH + 1
    modifies wb
    ensures wb.Valid()
    ensures ok <==> depth - 1 + NestingAll(a) <= MAX_DEPTH
    ensures ok ==> wb.Contents() == old(wb.Contents()) + EncodeSize(|a|) + EncodeAll(a)
    decreases a, 0
  {
    hide EncodeInteger, Encode, EncodeAll, Nesting, NestingAll, WriteBlock.Valid, WriteBlock.Contents;
    if |a| >= MAX_COOKIE - 1 {
      wb.Push([Combine(TYPE_TABLE, MAX_COOKIE - 1)]);
      PackInteger(wb, |a|);
    } else {
      wb.Push([Combine(TYPE_TABLE, |a|)]);
    }
    ghost var start := wb.Contents();
    assert start == old(wb.Contents()) + EncodeSize(|a|);
    hide EncodeSize;
    NoValues(a);
    for i := 0 to |a|
      invariant wb.Valid() && wb.Contents() == start + EncodeAll(a[..i])
      invariant depth - 1 + NestingAll(a[..i]) <= MAX_DEPTH
    {
      var one := PackOne(wb, a[i], depth);
      assert a[..i + 1] == a[..i] + [a[i]];
      EncodeAllNext(a[..i], a[i]);
      if !one {
        NestingAllAt(a, i);
        return false;
      }
    }
    assert a[..|a|] == a;
    return true;
  }

  /** `wb_table_hash`: the pairs and a closing nil. */
  method PackHash(wb: WriteBlock, h: seq<Pair>, depth: nat) returns (ok: bool)
    requires wb.Valid() && 1 <= depth <= MAX_DEPTH + 1
    modifies wb
    ensures wb.Valid()
    ensures ok <==> depth - 1 + NestingPairs(h) <= MAX_DEPTH
    ensures ok ==> wb.Contents() == old(wb.Contents()) + EncodePairs(h)
    decreases h, 0
  {
    ghost var start := wb.Contents();
    hide EncodePair, EncodePairs, PairBytes, NestingPair, NestingPairs, WriteBlock.Valid, WriteBlock.Contents;
    NoPairs(h);
    for i := 0 to |h|
      invariant wb.Valid() && wb.Contents() == start + PairBytes(h[..i])
      invariant depth - 1 + NestingPairs(h[..i]) <= MAX_DEPTH
    {
      var one := PackPair(wb, h[i], depth);
      assert h[..i + 1] == h[..i] + [h[i]];
      PairBytesNext(h[..i], h[i]);
      if !one {
        NestingPairsAt(h, i);
        return false;
      }
    }
    assert h[..|h|] == h;
    wb.Push([Combine(TYPE_NIL, 0)]);
    PairBytesEnd(h);
    return true;
  }

  lemma {:induction false} NoValues(a: seq<Value>)
    ensures EncodeAll(a[..0]) == [] && NestingAll(a[..0]) == 0
  {
  }

  lemma {:induction false} NoPairs(h: seq<Pair>)
    ensures PairBytes(h[..0]) == [] && NestingPairs(h[..0]) == 0
  {
  }

  method PackPair(wb: WriteBlock, p: Pair, depth: nat) returns (ok: bool)
    requires wb.Valid()
    modifies wb
    ensures wb.Valid()
    ensures ok <==> depth - 1 + NestingPair(p) <= MAX_DEPTH
    ensures ok ==> wb.Contents() == old(wb.Contents()) + EncodePair(p)
    decreases p
  {
    hide WriteBlock.Valid, WriteBlock.Contents, Encode, Nesting;
    ok := PackOne(wb, p.key, depth);
    if ok {
      ok := PackOne(wb, p.value, depth);
    }
  }

  /** `luaseri_pack`: a list of values comes back if and only if none is too deep and their bytes together
      are fewer than 2^31. */
  method Pack(vs: seq<Value>) returns (r: Packed)
    ensures r.TooDeep? <==> exists i :: 0 <= i < |vs| && Nesting(vs[i]) > MAX_DEPTH
    ensures r.TooLong? <==> !r.TooDeep? && |EncodeAll(vs)| >= TWO31
    ensures r.Packed? ==> r.bytes == EncodeAll(vs)
    ensures r.Packed? && LuaAll(vs) ==> Unpack(r.bytes) == Ok(vs, [])
  {
    var wb := new WriteBlock();
    hide Encode, EncodeAll, Nesting, NestingAll, WriteBlock.Valid, WriteBlock.Contents;
    NoValues(vs);
    for i := 0 to |vs|
      invariant fresh(wb) && wb.Valid() && wb.Contents() == EncodeAll(vs[..i])
      invariant forall j :: 0 <= j < i ==> Nesting(vs[j]) <= MAX_DEPTH
    {
      var ok := PackOne(wb, vs[i], 0);
      if !ok {
        return TooDeep;
      }
      assert vs[..i + 1] == vs[..i] + [vs[i]];
      EncodeAllNext(vs[..i], vs[i]);
    }
    assert vs[..|vs|] == vs;
    wb.Counted();
    if wb.len >= TWO31 {
      return TooLong;
    }
    var bytes := wb.Gather();
    if LuaAll(vs) {
      ShortAllSound(vs);
      UnpackRoundTrip(vs);
    }
    return Packed(bytes);
  }

  // ---- What the two parts of a table leave out ----

  /** A Lua table as lua_next lists it. */
  ghost predicate DistinctKeys(entries: seq<Pair>) {
    forall i, j :: 0 <= i < j < |entries| ==> entries[i].key != entries[j].key
  }

  function Get(entries: seq<Pair>, k: Value): Value {
    if entries == [] then Nil else if entries[0].key == k then entries[0].value else Get(entries[1..], k)
  }

  predicate InArray(k: Value, size: nat) {
    k.Integer? && 0 < k.n <= size
  }

  /** The values wb_table_array visits. */
  function ArrayPart(entries: seq<Pair>, size: nat): seq<Value> {
    seq(size, i => Get(entries, Integer(i + 1)))
  }

  /** The pairs wb_table_hash does not skip. */
  function HashPart(entries: seq<Pair>, size: nat): seq<Pair> {
    if entries == [] then []
    else if InArray(entries[0].key, size) then HashPart(entries[1..], size)
    else [entries[0]] + HashPart(entries[1..], size)
  }

  lemma {:induction false} GetIs(entries: seq<Pair>, k: Value, v: Value)
    requires DistinctKeys(entries) && v != Nil
    ensures Get(entries, k) == v <==> Pair(k, v) in entries
  {
    if entries != [] {
      var rest := entries[1..];
      assert forall i :: 0 <= i < |rest| ==> rest[i] == entries[i + 1];
      GetIs(rest, k, v);
      assert Pair(k, v) in entries <==> entries[0] == Pair(k, v) || Pair(k, v) in rest;
    }
  }

  lemma {:induction false} HashPartIs(entries: seq<Pair>, size: nat, p: Pair)
    ensures p in HashPart(entries, size) <==> p in entries && !InArray(p.key, size)
  {
    if entries != [] {
      HashPartIs(entries[1..], size, p);
      assert p in entries <==> entries[0] == p || p in entries[1..];
    }
  }

  /** Whatever border lua_rawlen picked, the two parts together hold exactly the table's pairs, and no
      pair is in both. */
  lemma {:induction false} PartsCover(entries: seq<Pair>, size: nat, k: Value, v: Value)
    requires DistinctKeys(entries) && v != Nil
    ensures Pair(k, v) in entries <==>
            (InArray(k, size) && ArrayPart(entries, size)[k.n - 1] == v) || Pair(k, v) in HashPart(entries, size)
    ensures InArray(k, size) ==> Pair(k, v) !in HashPart(entries, size)
  {
    HashPartIs(entries, size, Pair(k, v));
    GetIs(entries, k, v);
    if InArray(k, size) {
      assert ArrayPart(entries, size)[k.n - 1] == Get(entries, Integer(k.n));
    }
  }
}
