/** The SHA-1 context of lsha1.c, changed in place by every piece of a message. */
module Sha1Context {

  import opened Sha1Block
  import opened Sha1Stream

  /** memcpy into the block buffer. */
  method Copy(buffer: array<Octet>, at: nat, data: seq<Octet>)
    requires at + |data| <= buffer.Length
    modifies buffer
    ensures buffer[..at] == old(buffer[..at]) && buffer[at..at + |data|] == data
    ensures buffer[at + |data|..] == old(buffer[at + |data|..])
  {
    for i := 0 to |data|
      invariant buffer[..at] == old(buffer[..at]) && buffer[at + |data|..] == old(buffer[at + |data|..])
      invariant forall k :: 0 <= k < i ==> buffer[at + k] == data[k]
    {
      buffer[at + i] := data[i];
    }
  }

  /** Hash value and buffer after the message `m`. */
  ghost predicate Stands(h: Registers, buffer: seq<Octet>, m: seq<Octet>) {
    var j := |m| % 64;
    |buffer| == 64 && h == Hash(Sha1Stream.Initial, m[..|m| - j]) && buffer[..j] == m[|m| - j..]
  }

  /** The first block that a piece completes. */
  lemma {:induction false} FillBlock(h: Registers, before: seq<Octet>, buffer: seq<Octet>, m: seq<Octet>, data: seq<Octet>)
    requires Stands(h, before, m) && |m| % 64 + |data| > 63 && |buffer| == 64
    requires var j := |m| % 64; buffer[..j] == before[..j] && buffer[j..] == data[..64 - j]
    ensures var c := |m| - |m| % 64; Compress(h, buffer) == Hash(Sha1Stream.Initial, (m + data)[..c + 64])
  {
    hide Compress, Hash;
    var j, all := |m| % 64, m + data;
    var c := |m| - j;
    assert buffer == buffer[..j] + buffer[j..];
    assert all[c..c + 64] == m[c..] + data[..64 - j];
    assert all[..c] == m[..c];
    HashNext(Sha1Stream.Initial, all, c);
  }

  lemma {:induction false} NextBlock(m: seq<Octet>, data: seq<Octet>, i: nat)
    requires (|m| + i) % 64 == 0 && i + 64 <= |data|
    ensures Compress(Hash(Sha1Stream.Initial, (m + data)[..|m| + i]), data[i..i + 64]) == Hash(Sha1Stream.Initial, (m + data)[..|m| + i + 64])
  {
    hide Compress, Hash;
    HashNext(Sha1Stream.Initial, m + data, |m| + i);
    SecondHalf(m, data, i, i + 64);
  }

  lemma {:induction false} SecondHalf(m: seq<Octet>, data: seq<Octet>, i: nat, j: nat)
    requires i <= j <= |data|
    ensures (m + data)[|m| + i..|m| + j] == data[i..j]
  {
  }

  /** What is left of the piece goes to the front of the buffer. */
  lemma {:induction false} KeepRest(h: Registers, buffer: seq<Octet>, m: seq<Octet>, data: seq<Octet>, i: nat)
    requires |buffer| == 64 && i <= |data| < i + 64 && (|m| + i) % 64 == 0
    requires h == Hash(Sha1Stream.Initial, (m + data)[..|m| + i]) && buffer[..|data| - i] == data[i..]
    ensures Stands(h, buffer, m + data)
  {
    hide Compress, Hash;
    var all := m + data;
    RestLength(|all|, |m| + i);
    assert all[|m| + i..] == data[i..];
  }

  lemma {:induction false} RestLength(n: nat, c: nat)
    requires c % 64 == 0 && c <= n < c + 64
    ensures n % 64 == n - c
  {
  }

  /** A piece that completes no block goes behind what is in the buffer. */
  lemma {:induction false} KeepAll(h: Registers, before: seq<Octet>, buffer: seq<Octet>, m: seq<Octet>, data: seq<Octet>)
    requires Stands(h, before, m) && |m| % 64 + |data| <= 63 && |buffer| == 64
    requires var j := |m| % 64; buffer[..j] == before[..j] && buffer[j..j + |data|] == data
    ensures Stands(h, buffer, m + data)
  {
    hide Compress, Hash;
    var j, all := |m| % 64, m + data;
    var c := |m| - j;
    RestLength(|all|, c);
    assert all[..c] == m[..c];
    assert all[c..] == m[c..] + data;
    assert buffer[..j + |data|] == buffer[..j] + buffer[j..j + |data|];
  }

  lemma {:induction false} StandsNothing(state: seq<Word>, buffer: seq<Octet>)
    requires |buffer| == 64 && |state| == 5 && StateOf(state) == Sha1Stream.Initial
    ensures Stands(StateOf(state), buffer, []) && CountsLow(0, 0) && CountsHigh(0, 0)
  {
    hide StateOf;
  }

  lemma {:induction false} StandsWhole(h: Registers, buffer: seq<Octet>, m: seq<Octet>)
    requires Stands(h, buffer, m) && |m| % 64 == 0
    ensures h == Hash(Sha1Stream.Initial, m)
  {
    assert m[..|m|] == m;
  }

  class Context {
    const state: array<Word>
    var count0: nat
    var count1: nat
    const buffer: array<Octet>
    ghost var msg: seq<Octet>

    ghost predicate Valid()
      reads this, state, buffer
    {
      && state.Length == 5 && buffer.Length == 64
      && Stands(StateOf(state[..]), buffer[..], msg)
      && CountsLow(|msg|, count0)
    }

    /** The high word of the counter is right too. */
    ghost predicate CountsAll()
      reads this
    {
      CountsHigh(|msg|, count1)
    }

    /** `sat_SHA1_Init`. */
    constructor ()
      ensures Valid() && CountsAll() && msg == [] && fresh(state) && fresh(buffer) && count0 == count1 == 0
    {
      state := new Word[5];
      buffer := new Octet[64];
      count0, count1 := 0, 0;
      msg := [];
      new;
      state[0], state[1], state[2], state[3], state[4] := 0x67452301, 0xEFCDAB89, 0x98BADCFE, 0x10325476, 0xC3D2E1F0;
      hide Stands, CountsLow, CountsHigh;
      assert StateOf(state[..]) == Sha1Stream.Initial;
      StandsNothing(state[..], buffer[..]);
    }

    /** `sat_SHA1_Update`: the message grows by the piece. The count stays right exactly as long as pieces
        are below 2^29 bytes or the low words carry. */
    method Update(data: seq<Octet>)
      requires Valid()
      modifies this`count0, this`count1, this`msg, state, buffer
      ensures Valid() && msg == old(msg) + data
      ensures count0 == (old(count0) + 8 * |data|) % TWO32 && count1 == NextHigh(old(count0), old(count1), |data|)
      ensures old(CountsAll()) ==> (CountsAll() <==> Carries(old(count0), |data|))
    {
      var len := |data|;
      LowNext(|msg|, len, count0);
      if CountsAll() { HighNext(|msg|, len, count0, count1); }
      var j := count0 / 8 % 64;
      count1 := NextHigh(count0, count1, len);
      count0 := (count0 + 8 * len) % TWO32;
      Absorb(j, data);
      msg := msg + data;
    }

    /** The part of it that moves bytes. */
    method Absorb(j: nat, data: seq<Octet>)
      requires state.Length == 5 && buffer.Length == 64 && Stands(StateOf(state[..]), buffer[..], msg) && j == |msg| % 64
      modifies state, buffer
      ensures Stands(StateOf(state[..]), buffer[..], msg + data)
    {
      hide Stands, Compress, Hash, StateOf;
      var len, i := |data|, 0;
      ghost var h, before := StateOf(state[..]), buffer[..];
      if j + len > 63 {
        i := 64 - j;
        Copy(buffer, j, data[..i]);
        assert buffer[j..] == data[..i];
        FillBlock(h, before, buffer[..], msg, data);
        Transform(state, buffer[..]);
        while i + 63 < len
          invariant 0 <= i <= len && (|msg| + i) % 64 == 0
          invariant StateOf(state[..]) == Hash(Sha1Stream.Initial, (msg + data)[..|msg| + i])
        {
          NextBlock(msg, data, i);
          Transform(state, data[i..i + 64]);
          i := i + 64;
        }
        Copy(buffer, 0, data[i..]);
        KeepRest(StateOf(state[..]), buffer[..], msg, data, i);
      } else {
        Copy(buffer, j, data);
        KeepAll(h, before, buffer[..], msg, data);
      }
    }

    /** `sat_SHA1_Final`: pads one byte at a time. With a right count it gives the digest of the message. */
    method Final() returns (digest: seq<Octet>)
      requires Valid()
      modifies this`count0, this`count1, this`msg, state, buffer
      ensures digest == Output(Hash(Sha1Stream.Initial, PaddedWith(old(msg), Four(old(count1)) + Four(old(count0)))))
      ensures old(CountsAll()) ==> digest == Digest(old(msg))
    {
      ghost var m := msg;
      hide Stands, Compress, Hash, StateOf, Zeros, LengthBytes, Four, Output, PaddedWith;
      var finalCount := Four(count1) + Four(count0);
      if CountsAll() { CountIs(|m|, count0, count1); }
      Update([0x80]);
      NoZeros();
      ghost var z := 0;
      while count0 % 512 / 8 * 8 != 448
        invariant Valid() && z <= PadZeros(|m|) && msg == m + [0x80] + Zeros(z)
        decreases PadZeros(|m|) - z
      {
        LowIs(|msg|, count0);
        ZerosLeft(|m|, z);
        Update([0]);
        ZerosNext(m + [0x80], z);
        z := z + 1;
      }
      LowIs(|msg|, count0);
      ZerosLeft(|m|, z);
      Update(finalCount);
      PaddedIs(m, finalCount);
      StandsWhole(StateOf(state[..]), buffer[..], msg);
      digest := Output(Registers(state[0], state[1], state[2], state[3], state[4]));
      StateIs(state[..]);
    }
  }

  lemma {:induction false} StateIs(s: seq<Word>)
    requires |s| == 5
    ensures StateOf(s) == Registers(s[0], s[1], s[2], s[3], s[4])
  {
  }

  lemma {:induction false} CountIs(n: nat, count0: nat, count1: nat)
    requires CountsLow(n, count0) && CountsHigh(n, count1)
    ensures Four(count1) + Four(count0) == LengthBytes(n)
  {
  }

  /** The loop's test reads the length modulo 64. */
  lemma {:induction false} LowIs(n: nat, count0: nat)
    requires CountsLow(n, count0)
    ensures count0 % 512 / 8 * 8 == 448 <==> n % 64 == 56
  {
    LowBytes(n, 8 * n / TWO32, count0);
    LowTest(count0);
  }

  lemma {:induction false} LowTest(count0: nat)
    requires count0 % 8 == 0
    ensures count0 % 512 / 8 == count0 / 8 % 64
  {
    var b := count0 / 8;
    assert count0 == 8 * b;
    assert b == 64 * (b / 64) + b % 64;
    assert count0 % 512 == 8 * (b % 64);
  }

  lemma {:induction false} NoZeros()
    ensures Zeros(0) == []
  {
  }

  lemma {:induction false} ZerosNext(m: seq<Octet>, z: nat)
    ensures m + Zeros(z) + [0] == m + Zeros(z + 1)
  {
  }

  /** The loop ends after as many zeros as the padding has. */
  lemma {:induction false} ZerosLeft(n: nat, z: nat)
    requires z <= PadZeros(n)
    ensures (n + 1 + z) % 64 == 56 <==> z == PadZeros(n)
  {
  }

  lemma {:induction false} PaddedIs(m: seq<Octet>, length: seq<Octet>)
    requires |length| == 8
    ensures PaddedWith(m, length) == m + [0x80] + Zeros(PadZeros(|m|)) + length && |PaddedWith(m, length)| % 64 == 0
  {
  }

  // ---- Whole messages ----

  function Joined(pieces: seq<seq<Octet>>): seq<Octet> {
    if pieces == [] then [] else Joined(pieces[..|pieces| - 1]) + pieces[|pieces| - 1]
  }

  /** Any split of a message into pieces below 2^29 bytes gives the digest of the message. */
  method HashPieces(pieces: seq<seq<Octet>>) returns (digest: seq<Octet>)
    requires forall i :: 0 <= i < |pieces| ==> |pieces[i]| < TWO29
    ensures digest == Digest(Joined(pieces))
  {
    var ctx := new Context();
    hide Digest;
    for i := 0 to |pieces|
      invariant fresh(ctx) && fresh(ctx.state) && fresh(ctx.buffer) && ctx.Valid() && ctx.CountsAll()
      invariant ctx.msg == Joined(pieces[..i])
    {
      hide Context.Valid, Context.CountsAll;
      ctx.Update(pieces[i]);
      assert pieces[..i + 1][..i] == pieces[..i];
    }
    assert pieces[..|pieces|] == pieces;
    digest := ctx.Final();
  }

  /** `lsha1`: one piece. */
  method Sha1(m: seq<Octet>) returns (digest: seq<Octet>)
    ensures digest == Output(Hash(Sha1Stream.Initial, PaddedWith(m, OneCall(|m|))))
    ensures |m| < TWO29 ==> digest == Digest(m)
  {
    hide Digest, Hash, Output, PaddedWith, Four, NextHigh, Context.Valid, Padded;
    var ctx := new Context();
    assert [] + m == m;
    ctx.Update(m);
    digest := ctx.Final();
  }

  // ---- HMAC ----

  function XorAll(s: seq<Octet>, x: Octet): (r: seq<Octet>)
    ensures |r| == |s|
  {
    seq(|s|, i requires 0 <= i < |s| => XorOctet(s[i], x))
  }

  function XorOctet(a: Octet, x: Octet): Octet { a ^ x }

  lemma {:induction false} XorAllAt(s: seq<Octet>, x: Octet, i: nat)
    requires i < |s|
    ensures XorAll(s, x)[i] == s[i] ^ x
  {
  }

  /** The key as RFC 2104 fits it to a block. */
  function BlockKey(key: seq<Octet>): (k: seq<Octet>)
    ensures |k| == 64
  {
    DigestLength(key);
    if |key| > 64 then Digest(key) + Zeros(44) else key + Zeros(64 - |key|)
  }

  function HmacSpec(key: seq<Octet>, text: seq<Octet>): seq<Octet> {
    Digest(XorAll(BlockKey(key), 0x5c) + Digest(XorAll(BlockKey(key), 0x36) + text))
  }

  /** `xor_key`, four bytes at a time. */
  method XorKey(key: array<Octet>, x: Octet)
    requires key.Length == 64
    modifies key
    ensures key[..] == XorAll(old(key[..]), x)
    ensures forall k :: 0 <= k < 64 ==> key[k] == old(key[k]) ^ x
  {
    hide XorOctet;
    var i := 0;
    while i < 64
      invariant 0 <= i <= 64 && i % 4 == 0
      invariant forall k :: 0 <= k < i ==> key[k] == XorOctet(old(key[k]), x)
      invariant forall k :: i <= k < 64 ==> key[k] == old(key[k])
    {
      key[i] := XorOctet(key[i], x);
      key[i + 1] := XorOctet(key[i + 1], x);
      key[i + 2] := XorOctet(key[i + 2], x);
      key[i + 3] := XorOctet(key[i + 3], x);
      i := i + 4;
    }
    forall k | 0 <= k < 64 ensures key[k] == old(key[k]) ^ x {
      XorAllAt(old(key[..]), x, k);
    }
  }

  lemma {:induction false} OuterToInner(k: Octet)
    ensures XorOctet(XorOctet(k, 0x5c), 0x5c ^ 0x36) == XorOctet(k, 0x36)
  {
  }

  lemma {:induction false} KeyTwice(s: seq<Octet>)
    ensures XorAll(XorAll(s, 0x5c), 0x5c ^ 0x36) == XorAll(s, 0x36)
  {
    hide XorOctet;
    forall i | 0 <= i < |s| ensures XorAll(XorAll(s, 0x5c), 0x5c ^ 0x36)[i] == XorAll(s, 0x36)[i] {
      OuterToInner(s[i]);
    }
  }

  /** The lengths are counted right: the key's in one call, the text's behind one block. */
  predicate HmacCounts(key: seq<Octet>, text: seq<Octet>) {
    |key| < TWO29 && Carries(512, |text|)
  }

  /** `lhmac_sha1`, for every key and text whose lengths are counted right. */
  method Hmac(key: seq<Octet>, text: seq<Octet>) returns (digest: seq<Octet>)
    ensures HmacCounts(key, text) ==> digest == HmacSpec(key, text)
  {
    hide *;
    var rkey := FitKey(key);
    ghost var k := BlockKey(key);
    KeyTwice(k);
    DigestLength(XorAll(k, 0x36) + text);
    HmacIs(key, text);
    SmallCarries(512, 20);
    XorKey(rkey, 0x5c);
    var ctx1 := Started(rkey[..]);
    XorKey(rkey, 0x5c ^ 0x36);
    var ctx2 := Started(rkey[..]);
    var digest2 := Finished(ctx2, text);
    digest := Finished(ctx1, digest2);
  }

  lemma {:induction false} HmacIs(key: seq<Octet>, text: seq<Octet>)
    ensures var k := BlockKey(key);
            HmacSpec(key, text) == Digest(XorAll(k, 0x5c) + Digest(XorAll(k, 0x36) + text))
    ensures HmacCounts(key, text) ==> |key| < TWO29 && Carries(512, |text|)
  {
  }

  method Started(key: seq<Octet>) returns (ctx: Context)
    requires |key| == 64
    ensures fresh(ctx) && fresh(ctx.state) && fresh(ctx.buffer) && ctx.Valid() && ctx.CountsAll() && ctx.msg == key
    ensures ctx.count0 == 512
  {
    hide Context.Valid, Context.CountsAll, NextHigh;
    ctx := new Context();
    assert [] + key == key;
    ctx.Update(key);
  }

  method Finished(ctx: Context, text: seq<Octet>) returns (digest: seq<Octet>)
    requires ctx.Valid() && ctx.CountsAll()
    modifies ctx, ctx.state, ctx.buffer
    ensures Carries(old(ctx.count0), |text|) ==> digest == Digest(old(ctx.msg) + text)
  {
    hide Context.Valid, Context.CountsAll, NextHigh, Digest, Output, Hash, PaddedWith, Four;
    ctx.Update(text);
    digest := ctx.Final();
  }

  /** A key that is too long is hashed first. */
  method FitKey(key: seq<Octet>) returns (rkey: array<Octet>)
    ensures fresh(rkey) && rkey.Length == 64 && (|key| < TWO29 ==> rkey[..] == BlockKey(key))
  {
    hide Digest;
    rkey := new Octet[64](_ => 0);
    if |key| > 64 {
      var d := Sha1(key);
      DigestLength(key);
      Copy(rkey, 0, d);
      assert rkey[..] == rkey[0..20] + rkey[20..];
    } else {
      Copy(rkey, 0, key);
      assert rkey[..] == rkey[0..|key|] + rkey[|key|..];
    }
  }

  lemma {:induction false} DigestLength(m: seq<Octet>)
    ensures |Digest(m)| == 20 < TWO29
  {
    hide Hash, Padded;
  }
}
