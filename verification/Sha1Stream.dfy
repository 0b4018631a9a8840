/**
 The streaming interface of lsha1.c. Whatever pieces a message comes in, the context stands for the
 message so far, and the digest is that of the whole message padded as section 5.1.1 of FIPS 180-4
 says; on top of it HMAC as in RFC 2104.
 */
module Sha1Stream {

  import opened Sha1Block
  import opened Division

  const TWO29: nat := 0x2000_0000
  const TWO32: nat := 0x1_0000_0000

  const Initial: Registers := Registers(0x67452301, 0xEFCDAB89, 0x98BADCFE, 0x10325476, 0xC3D2E1F0)

  // ---- The digest of a whole message ----

  function Hash(h: Registers, s: seq<Octet>): Registers
    requires |s| % 64 == 0
    decreases |s|
  {
    if s == [] then h else Hash(Compress(h, s[..64]), s[64..])
  }

  function Zeros(n: nat): (s: seq<Octet>)
    ensures |s| == n
  {
    seq(n, _ => 0)
  }

  /** A 32-bit number, most significant byte first. */
  function Four(n: nat): (s: seq<Octet>)
    ensures |s| == 4
  {
    [(n / 0x100_0000 % 256) as Octet, (n / 0x1_0000 % 256) as Octet, (n / 0x100 % 256) as Octet, (n % 256) as Octet]
  }

  /** The number of bits of an n-byte message, modulo 2^64. */
  function LengthBytes(n: nat): (s: seq<Octet>)
    ensures |s| == 8
  {
    Four(8 * n / TWO32 % TWO32) + Four(8 * n % TWO32)
  }

  /** A digit of the low word is a digit of the number. */
  lemma {:induction false} LowDigit(b: nat, d: nat, m: nat)
    requires d > 0 && d * (256 * m) == TWO32
    ensures b % TWO32 / d % 256 == b / d % 256
  {
    var q, r := b / TWO32, b % TWO32;
    assert q * TWO32 == (q * (256 * m)) * d;
    DivShift(r, d, q * (256 * m));
    ModShift(r / d, 256, q * m);
    assert q * (256 * m) == (q * m) * 256;
  }

  lemma {:induction false} LowDigits(b: nat)
    ensures b % TWO32 / 0x100_0000 % 256 == b / 0x100_0000 % 256
    ensures b % TWO32 / 0x1_0000 % 256 == b / 0x1_0000 % 256
    ensures b % TWO32 / 0x100 % 256 == b / 0x100 % 256
    ensures b % TWO32 % 256 == b % 256
  {
    LowDigit(b, 0x100_0000, 1);
    LowDigit(b, 0x1_0000, 0x100);
    LowDigit(b, 0x100, 0x1_0000);
    LowDigit(b, 1, 0x100_0000);
  }

  function Quad(a: nat, b: nat, c: nat, d: nat): seq<Octet>
    requires a < 256 && b < 256 && c < 256 && d < 256
  {
    [a as Octet, b as Octet, c as Octet, d as Octet]
  }

  lemma {:induction false} FourIs(n: nat)
    ensures Four(n) == Quad(n / 0x100_0000 % 256, n / 0x1_0000 % 256, n / 0x100 % 256, n % 256)
  {
  }

  /** The length field: the number of bits, most significant byte first. */
  lemma {:induction false} LengthLayout(n: nat)
    ensures var b := 8 * n;
            LengthBytes(n)
            == Quad(b / 0x100_0000_0000_0000 % 256, b / 0x1_0000_0000_0000 % 256, b / 0x100_0000_0000 % 256, b / 0x1_0000_0000 % 256)
             + Quad(b / 0x100_0000 % 256, b / 0x1_0000 % 256, b / 0x100 % 256, b % 256)
  {
    hide Four, Quad;
    var b := 8 * n;
    LowDigits(b);
    LowDigits(b / TWO32);
    HighDigits(b);
    FourIs(b % TWO32);
    FourIs(b / TWO32 % TWO32);
  }

  lemma {:induction false} HighDigits(b: nat)
    ensures b / TWO32 / 0x100_0000 == b / 0x100_0000_0000_0000 && b / TWO32 / 0x1_0000 == b / 0x1_0000_0000_0000
    ensures b / TWO32 / 0x100 == b / 0x100_0000_0000
  {
  }

  function PadZeros(n: nat): nat {
    (119 - n % 64) % 64
  }

  function PaddedWith(m: seq<Octet>, length: seq<Octet>): (p: seq<Octet>)
    requires |length| == 8
    ensures |p| % 64 == 0
  {
    PadLength(|m|);
    m + [0x80] + Zeros(PadZeros(|m|)) + length
  }

  lemma {:induction false} PadLength(n: nat)
    ensures (n + 1 + PadZeros(n) + 8) % 64 == 0
  {
  }

  /** Section 5.1.1. */
  function Padded(m: seq<Octet>): (p: seq<Octet>)
    ensures |p| % 64 == 0
  {
    PaddedWith(m, LengthBytes(|m|))
  }

  function Split(w: Word): seq<Octet> {
    [((w >> 24) & 0xFF) as Octet, ((w >> 16) & 0xFF) as Octet, ((w >> 8) & 0xFF) as Octet, (w & 0xFF) as Octet]
  }

  function Output(h: Registers): seq<Octet> {
    Split(h.a) + Split(h.b) + Split(h.c) + Split(h.d) + Split(h.e)
  }

  function Digest(m: seq<Octet>): seq<Octet> {
    Output(Hash(Initial, Padded(m)))
  }

  lemma {:induction false} HashAppend(h: Registers, a: seq<Octet>, b: seq<Octet>)
    requires |a| % 64 == 0 && |b| % 64 == 0
    ensures Hash(h, a + b) == Hash(Hash(h, a), b)
    decreases |a|
  {
    hide Compress;
    if a == [] {
      assert a + b == b;
    } else {
      assert (a + b)[..64] == a[..64] && (a + b)[64..] == a[64..] + b;
      HashAppend(Compress(h, a[..64]), a[64..], b);
    }
  }

  lemma {:induction false} HashNext(h: Registers, s: seq<Octet>, c: nat)
    requires c % 64 == 0 && c + 64 <= |s|
    ensures Hash(h, s[..c + 64]) == Compress(Hash(h, s[..c]), s[c..c + 64])
  {
    hide Compress;
    var b := s[c..c + 64];
    assert s[..c + 64] == s[..c] + b;
    HashAppend(h, s[..c], b);
    assert b[..64] == b && b[64..] == [];
  }

  // ---- The counter ----

  /** What the two words of the counter should be after `n` bytes. */
  predicate CountsLow(n: nat, count0: nat) {
    count0 == 8 * n % TWO32
  }

  predicate CountsHigh(n: nat, count1: nat) {
    count1 == 8 * n / TWO32 % TWO32
  }

  /** The carry as the program computes it. */
  function NextHigh(count0: nat, count1: nat, len: nat): nat {
    var low := (count0 + 8 * len) % TWO32;
    ((if low < 8 * len then (count1 + 1) % TWO32 else count1) + len / TWO29) % TWO32
  }

  lemma {:induction false} LowNext(n: nat, len: nat, count0: nat)
    requires CountsLow(n, count0)
    ensures CountsLow(n + len, (count0 + 8 * len) % TWO32)
    ensures count0 / 8 % 64 == n % 64
  {
    var q := 8 * n / TWO32;
    assert 8 * n == q * TWO32 + count0;
    ModShift(count0 + 8 * len, TWO32, q);
    LowBytes(n, q, count0);
  }

  lemma {:induction false} LowBytes(n: nat, q: nat, count0: nat)
    requires 8 * n == q * TWO32 + count0
    ensures count0 % 8 == 0 && count0 / 8 % 64 == n % 64
  {
    var bytes := n - q * TWO29;
    assert count0 == 8 * bytes;
    ModShift(bytes, 64, q * 0x80_0000);
  }

  lemma {:induction false} DivShift(x: nat, n: nat, q: nat)
    requires n > 0
    ensures (x + q * n) / n == x / n + q
  {
    assert x + q * n == (x / n + q) * n + x % n;
    ModIs(x + q * n, n, x / n + q, x % n);
  }

  /** The piece is below 2^29 bytes or the low words really carry: for longer pieces the comparison always
      finds a carry. */
  predicate Carries(count0: nat, len: nat) {
    len < TWO29 || count0 + 8 * len % TWO32 >= TWO32
  }

  lemma {:induction false} SmallCarries(count0: nat, len: nat)
    requires len < 64
    ensures Carries(count0, len)
  {
  }

  /** The high word is right after a call exactly then. */
  lemma {:induction false} HighNext(n: nat, len: nat, count0: nat, count1: nat)
    requires CountsLow(n, count0) && CountsHigh(n, count1)
    ensures CountsHigh(n + len, NextHigh(count0, count1, len))
            <==> Carries(count0, len)
  {
    var q := 8 * n / TWO32;
    assert 8 * (n + len) == (count0 + 8 * len) + q * TWO32;
    DivShift(count0 + 8 * len, TWO32, q);
    var d := (count0 + 8 * len) / TWO32;
    HighCases(count0, len);
    var carry := if (count0 + 8 * len) % TWO32 < 8 * len then 1 else 0;
    HighSum(q, carry, len / TWO29);
    if d != carry + len / TWO29 { Neighbours(q + d); }
  }

  lemma {:induction false} HighSum(q: nat, carry: nat, k: nat)
    requires carry <= 1
    ensures ((if carry == 1 then (q % TWO32 + 1) % TWO32 else q % TWO32) + k) % TWO32 == (q + carry + k) % TWO32
  {
  }

  lemma {:induction false} Neighbours(x: nat)
    ensures x % TWO32 != (x + 1) % TWO32
  {
  }

  /** The length bytes after one piece of `n` bytes. */
  function OneCall(n: nat): (s: seq<Octet>)
    ensures |s| == 8
  {
    Four(NextHigh(0, 0, n)) + Four(8 * n % TWO32)
  }

  /** Hashing a message in one call pads it with its length if and only if it is below 2^29 bytes. */
  lemma {:induction false} OneCallExact(n: nat)
    ensures CountsLow(n, 8 * n % TWO32) && (CountsHigh(n, NextHigh(0, 0, n)) <==> n < TWO29)
    ensures n < TWO29 ==> OneCall(n) == LengthBytes(n)
  {
    HighNext(0, n, 0, 0);
    hide Four, NextHigh;
  }

  lemma {:induction false} HighCases(count0: nat, len: nat)
    requires count0 < TWO32
    ensures var low, d := (count0 + 8 * len) % TWO32, (count0 + 8 * len) / TWO32;
            && (len < TWO29 ==> d == (if low < 8 * len then 1 else 0) && len / TWO29 == 0)
            && (len >= TWO29 ==> low < 8 * len && d == len / TWO29 + if count0 + 8 * len % TWO32 >= TWO32 then 1 else 0)
  {
  }
}
