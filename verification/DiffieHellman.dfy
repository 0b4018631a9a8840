/**
 The 64-bit Diffie-Hellman exchange of lua-crypt.c: multiplication and powers modulo the largest
 64-bit prime, in arithmetic that wraps at 2^64, and the two byte-string calls built on them.
 */
module DiffieHellman {

  import opened Division
  import opened Bytes

  const P: nat := 0xffff_ffff_ffff_ffc5
  const G: nat := 5
  const TWO64: nat := 0x1_0000_0000_0000_0000

  type Word = x: int | 0 <= x < 0x1_0000_0000_0000_0000

  datatype Result = Ok(value: seq<Byte>) | Err(message: string)

  /** What a 64-bit unsigned operation keeps of its exact result. */
  function Wrap(x: int): Word {
    x % TWO64
  }

  function Pow(a: nat, b: nat): nat {
    if b == 0 then 1 else a * Pow(a, b - 1)
  }

  // ---- Remainders of products and powers ----

  lemma {:induction false} MulMod(x: nat, y: nat, n: nat)
    requires n > 0
    ensures ((x % n) * y) % n == (x * y) % n
  {
    var q, r := x / n, x % n;
    assert x * y == r * y + (q * y) * n by {
      assert x == q * n + r;
      assert (q * n + r) * y == (q * y) * n + r * y;
    }
    ModShift(r * y, n, q * y);
  }

  lemma {:induction false} MulModBoth(x: nat, y: nat, n: nat)
    requires n > 0
    ensures ((x % n) * (y % n)) % n == (x * y) % n
  {
    MulMod(x, y % n, n);
    MulMod(y, x, n);
    assert (y % n) * x == x * (y % n) && x * y == y * x;
  }

  lemma {:induction false} PowMod(a: nat, b: nat, n: nat)
    requires n > 0
    ensures Pow(a % n, b) % n == Pow(a, b) % n
  {
    if b > 0 {
      PowMod(a, b - 1, n);
      MulMod(a, Pow(a % n, b - 1), n);
      MulModBoth(a, Pow(a % n, b - 1), n);
      MulModBoth(a, Pow(a, b - 1), n);
    }
  }

  lemma {:induction false} PowAdd(a: nat, b: nat, c: nat)
    ensures Pow(a, b + c) == Pow(a, b) * Pow(a, c)
  {
    if b > 0 {
      PowAdd(a, b - 1, c);
      assert a * (Pow(a, b - 1) * Pow(a, c)) == (a * Pow(a, b - 1)) * Pow(a, c);
    }
  }

  lemma {:induction false} PowPow(a: nat, b: nat, c: nat)
    ensures Pow(Pow(a, b), c) == Pow(a, b * c)
  {
    if c > 0 {
      PowPow(a, b, c - 1);
      PowAdd(a, b, b * (c - 1));
      assert b + b * (c - 1) == b * c;
    }
  }

  lemma {:induction false} Interchange(a: nat, b: nat, x: nat, y: nat)
    ensures (a * b) * (x * y) == (a * x) * (b * y)
  {
    var z := b * y;
    assert (a * b) * (x * y) == a * (b * (x * y));
    assert b * (x * y) == x * z;
    assert a * (x * z) == (a * x) * z;
  }

  lemma {:induction false} PowProduct(a: nat, b: nat, c: nat)
    ensures Pow(a * b, c) == Pow(a, c) * Pow(b, c)
  {
    if c > 0 {
      PowProduct(a, b, c - 1);
      Interchange(a, b, Pow(a, c - 1), Pow(b, c - 1));
    }
  }

  lemma {:induction false} PowOne(c: nat)
    ensures Pow(1, c) == 1
  {
    if c > 0 { PowOne(c - 1); }
  }

  // ---- Multiplication ----

  /** The remainder that the loop of `mul_mod_p` keeps. */
  ghost function Total(m: nat, a: nat, b: nat, p: nat): nat
    requires p > 0
  {
    (m + a * b) % p
  }

  lemma {:induction false} HalfProduct(a: nat, b: nat)
    ensures a * b == 2 * a * (b / 2) + (if b % 2 == 1 then a else 0)
  {
    var h := b / 2;
    if b % 2 == 1 {
      assert b == 2 * h + 1;
      assert a * (2 * h + 1) == 2 * a * h + a;
    } else {
      assert b == 2 * h;
      assert a * (2 * h) == 2 * a * h;
    }
  }

  /** Adding, doubling and halving, with or without one subtraction of `p`, keeps the remainder. */
  lemma {:induction false} AddStep(m: nat, m': nat, rest: nat, p: nat)
    requires p > 0 && (m' == m || m' + p == m)
    ensures (m' + rest) % p == (m + rest) % p
  {
    if m' != m { ModShift(m' + rest, p, 1); }
  }

  lemma {:induction false} DoubleStep(m: nat, a: nat, a': nat, h: nat, p: nat)
    requires p > 0 && (a' == 2 * a || a' + p == 2 * a)
    ensures (m + a' * h) % p == (m + 2 * a * h) % p
  {
    if a' != 2 * a {
      assert (a' + p) * h == a' * h + h * p;
      ModShift(m + a' * h, p, h);
    }
  }

  lemma {:induction false} HalfStep(m: nat, a: nat, b: nat, m': nat, a': nat, p: nat)
    requires p > 0
    requires if b % 2 == 1 then m' == m + a || m' + p == m + a else m' == m
    requires a' == 2 * a || a' + p == 2 * a
    ensures Total(m', a', b / 2, p) == Total(m, a, b, p)
  {
    HalfProduct(a, b);
    DoubleStep(m', a, a', b / 2, p);
    AddStep(if b % 2 == 1 then m + a else m, m', 2 * a * (b / 2), p);
  }

  /** The wrapping operations of the loop give the exact sums and differences. */
  lemma {:induction false} NoneLost(m: nat, a: nat)
    requires m < P && a <= P
    ensures Wrap(P - a) == P - a
    ensures m >= P - a ==> Wrap(m - (P - a)) == m - (P - a)
    ensures m < P - a ==> Wrap(m + a) == m + a
    ensures a >= P - a ==> Wrap(Wrap(a * 2) - P) == a * 2 - P
    ensures a < P - a ==> Wrap(a * 2) == a * 2
  {
  }

  /** Every intermediate fits in 64 bits or is right after wrapping: the result is the product's
      remainder. */
  method MulModP(a0: Word, b0: Word) returns (m: Word)
    requires a0 <= P
    ensures m == (a0 * b0) % P
  {
    var a: Word, b: Word := a0, b0;
    m := 0;
    ghost var total := Total(m, a, b, P);
    assert total == (a0 * b0) % P;
    hide Total, Wrap;
    while b != 0
      invariant a <= P && m < P && Total(m, a, b, P) == total
      decreases b
    {
      ghost var m1, a1 := m, a;
      NoneLost(m, a);
      if b % 2 == 1 {
        var t := Wrap(P - a);
        if m >= t {
          m := Wrap(m - t);
        } else {
          m := Wrap(m + a);
        }
      }
      if a >= Wrap(P - a) {
        a := Wrap(Wrap(a * 2) - P);
      } else {
        a := Wrap(a * 2);
      }
      HalfStep(m1, a1, b, m, a, P);
      b := b / 2;
    }
    TotalEnd(m, a, P);
  }

  lemma {:induction false} TotalEnd(m: nat, a: nat, p: nat)
    requires m < p
    ensures Total(m, a, 0, p) == m
  {
    ModSmall(m, p);
  }

  // ---- Powers ----

  /** What `powmodp` returns: the power's remainder, but for the one input the initial reduction lets
      through. */
  ghost function PowerSpec(a: nat, b: nat): nat {
    if a == P && b == 1 then P else Pow(a, b) % P
  }

  lemma {:induction false} Halves(a: nat, b: nat)
    ensures Pow(a, b) == Pow(a, b / 2) * Pow(a, b / 2) * (if b % 2 == 1 then a else 1)
  {
    PowAdd(a, b / 2, b / 2);
    if b % 2 == 1 { PowAdd(a, b - 1, 1); assert Pow(a, 1) == a * Pow(a, 0); }
  }

  /** Squaring a right half, then multiplying once more for an odd exponent. */
  lemma {:induction false} SquareStep(a: nat, b: nat, t: nat)
    requires t % P == Pow(a, b / 2) % P
    ensures (((t * t) % P) * (if b % 2 == 1 then a else 1)) % P == Pow(a, b) % P
  {
    var h := Pow(a, b / 2);
    MulModBoth(t, t, P);
    MulModBoth(h, h, P);
    Halves(a, b);
    MulMod(t * t, if b % 2 == 1 then a else 1, P);
    MulMod(h * h, if b % 2 == 1 then a else 1, P);
  }

  method PowModP(a: Word, b: Word) returns (t: Word)
    requires a <= P && b >= 1
    ensures t <= P && t == if b == 1 then a else Pow(a, b) % P
    decreases b
  {
    if b == 1 {
      return a;
    }
    t := PowModP(a, b / 2);
    ModP(a, b / 2, t);
    SquareStep(a, b, t);
    t := MulModP(t, t);
    ModSmall(t, P);
    if b % 2 != 0 {
      t := MulModP(t, a);
    }
  }

  lemma {:induction false} ModP(a: nat, h: nat, t: nat)
    requires h >= 1 && t == if h == 1 then a else Pow(a, h) % P
    ensures t % P == Pow(a, h) % P
  {
    if h == 1 {
      assert Pow(a, 1) == a * Pow(a, 0);
    } else {
      ModSmall(t, P);
    }
  }

  /** `powmodp`: right for every base and every exponent but (P, 1), where it answers P. */
  method PowerModP(a0: Word, b: Word) returns (r: Word)
    requires b >= 1
    ensures r == PowerSpec(a0, b)
  {
    var a := a0;
    PowMod(a0, b, P);
    if a > P {
      a := a % P;
      ModSmall(a, P);
    }
    r := PowModP(a, b);
    if b == 1 {
      assert Pow(a, 1) == a * Pow(a, 0);
      if a < P { ModSmall(a, P); }
    }
  }

  lemma {:induction false} PowerExact(a: nat, b: nat)
    requires b >= 1
    ensures PowerSpec(a, b) == Pow(a, b) % P <==> !(a == P && b == 1)
  {
    assert Pow(P, 1) == P * Pow(P, 0);
  }

  // ---- The exchange ----

  /** Powers of the generator are never divisible by P: 5 has the inverse (2P + 1) / 5. */
  lemma {:induction false} GeneratorNonZero(x: nat)
    ensures Pow(G, x) % P != 0
  {
    var inverse := 7378697629483820623;
    assert G * inverse == 1 + 2 * P;
    ModShift(1, P, 2);
    PowProduct(G, inverse, x);
    PowMod(G * inverse, x, P);
    PowOne(x);
    ModSmall(1, P);
    MulMod(Pow(G, x), Pow(inverse, x), P);
  }

  /** `ldhexchange`: the public key of a private one. */
  method Exchange(x: seq<Byte>) returns (r: Result)
    ensures r.Err? <==> |x| != 8 || FromLittle(x) == 0
    ensures r.Ok? ==> |r.value| == 8 && FromLittle(r.value) == Pow(G, FromLittle(x)) % P && FromLittle(r.value) != 0
  {
    if |x| != 8 {
      return Err("Invalid dh uint64 key");
    }
    FromLittleBound(x);
    Widths();
    var x64 := FromLittle(x);
    if x64 == 0 {
      return Err("Can't be 0");
    }
    var p := PowerModP(G, x64);
    GeneratorNonZero(x64);
    LittleRoundTrip(p, 8);
    return Ok(Little(p, 8));
  }

  /** `ldhsecret`: the shared secret from the other side's public key and one's own private key. */
  method Secret(x: seq<Byte>, y: seq<Byte>) returns (r: Result)
    ensures r.Err? <==> |x| != 8 || |y| != 8 || FromLittle(x) == 0 || FromLittle(y) == 0
    ensures r.Ok? ==> |r.value| == 8 && FromLittle(r.value) == PowerSpec(FromLittle(x), FromLittle(y))
  {
    if |x| != 8 {
      return Err("Invalid uint64 x");
    }
    if |y| != 8 {
      return Err("Invalid uint64 y");
    }
    FromLittleBound(x);
    FromLittleBound(y);
    Widths();
    var xx, yy := FromLittle(x), FromLittle(y);
    if xx == 0 || yy == 0 {
      return Err("Can't be 0");
    }
    var p := PowerModP(xx, yy);
    LittleRoundTrip(p, 8);
    return Ok(Little(p, 8));
  }

  lemma {:induction false} SecretIs(x: nat, y: nat)
    requires y >= 1
    ensures PowerSpec(Pow(G, x) % P, y) == Pow(G, x * y) % P
  {
    PowMod(Pow(G, x), y, P);
    PowPow(G, x, y);
  }

  /** Both sides arrive at the same bytes, and neither second step can fail. */
  method Agree(x: seq<Byte>, y: seq<Byte>) returns (a: Result, b: Result)
    requires |x| == 8 && |y| == 8 && FromLittle(x) != 0 && FromLittle(y) != 0
    ensures a.Ok? && b.Ok? && a == b
    ensures FromLittle(a.value) == Pow(G, FromLittle(x) * FromLittle(y)) % P
  {
    var px := Exchange(x);
    var py := Exchange(y);
    a := Secret(py.value, x);
    b := Secret(px.value, y);
    SecretIs(FromLittle(x), FromLittle(y));
    SecretIs(FromLittle(y), FromLittle(x));
    FromLittleRoundTrip(a.value);
    FromLittleRoundTrip(b.value);
  }
}
