/** Little-endian numbers in byte strings. */
module Bytes {

  import opened Division

  type Byte = x: int | 0 <= x < 256

  function Pow256(k: nat): (r: nat)
    ensures r > 0
  {
    if k == 0 then 1 else 256 * Pow256(k - 1)
  }

  /** The low `k` bytes of `n`, least significant first. */
  function Little(n: nat, k: nat): (s: seq<Byte>)
    ensures |s| == k
  {
    if k == 0 then [] else [n % 256] + Little(n / 256, k - 1)
  }

  function FromLittle(s: seq<Byte>): nat {
    if s == [] then 0 else s[0] + 256 * FromLittle(s[1..])
  }

  lemma {:induction false} FromLittleBound(s: seq<Byte>)
    ensures FromLittle(s) < Pow256(|s|)
  {
    if s != [] { FromLittleBound(s[1..]); }
  }

  lemma {:induction false} LittleRoundTrip(n: nat, k: nat)
    requires n < Pow256(k)
    ensures FromLittle(Little(n, k)) == n
  {
    if k > 0 {
      LittleRoundTrip(n / 256, k - 1);
      assert Little(n, k)[1..] == Little(n / 256, k - 1);
    }
  }

  lemma {:induction false} FromLittleRoundTrip(s: seq<Byte>)
    ensures Little(FromLittle(s), |s|) == s
  {
    if s != [] {
      FromLittleRoundTrip(s[1..]);
      assert FromLittle(s) % 256 == s[0] && FromLittle(s) / 256 == FromLittle(s[1..]);
    }
  }

  lemma {:induction false} Widths()
    ensures Pow256(1) == 0x100 && Pow256(2) == 0x1_0000 && Pow256(4) == 0x1_0000_0000 && Pow256(8) == 0x1_0000_0000_0000_0000
  {
    assert Pow256(2) == 256 * Pow256(1);
    assert Pow256(3) == 256 * Pow256(2);
    assert Pow256(4) == 256 * Pow256(3);
    assert Pow256(5) == 256 * Pow256(4);
    assert Pow256(6) == 256 * Pow256(5);
    assert Pow256(7) == 256 * Pow256(6);
    assert Pow256(8) == 256 * Pow256(7);
  }

  // ---- Layout ----

  lemma {:induction false} LittleNext(n: nat, k: nat)
    requires k > 0
    ensures Little(n, k) == [n % 256] + Little(n / 256, k - 1)
  {
  }

  lemma {:induction false} Digits(n: nat, b: nat)
    requires b > 0
    ensures n / 256 / b == n / (256 * b)
  {
    var q := n / 256;
    var d, u := q / b, q % b;
    assert q == d * b + u;
    assert d * (256 * b) == 256 * (d * b);
    ModIs(n, 256 * b, d, 256 * u + n % 256);
  }

  /** Byte `j` is the digit of 256 to the j. */
  lemma {:induction false} LittleLayout(n: nat, k: nat, j: nat)
    requires j < k
    ensures Little(n, k)[j] == n / Pow256(j) % 256
  {
    LittleNext(n, k);
    if j > 0 {
      hide Little;
      LittleLayout(n / 256, k - 1, j - 1);
      Digits(n, Pow256(j - 1));
    }
  }

  /** The widths in use, byte by byte. */
  lemma {:induction false} LittleShort(n: nat)
    ensures Little(n, 1) == [n % 256]
    ensures Little(n, 2) == [n % 256, n / 0x100 % 256]
    ensures Little(n, 4) == [n % 256, n / 0x100 % 256, n / 0x1_0000 % 256, n / 0x100_0000 % 256]
  {
    LittleNext(n, 1);
    LittleNext(n, 2);
    LittleNext(n / 256, 1);
    LittleNext(n, 4);
    LittleNext(n / 256, 3);
    LittleNext(n / 256 / 256, 2);
    LittleNext(n / 256 / 256 / 256, 1);
    hide Little;
    assert n / 256 / 256 == n / 0x1_0000 && n / 256 / 256 / 256 == n / 0x100_0000;
  }
}
