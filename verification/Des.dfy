/**
 DES as lua-crypt.c runs it, for any round function and any subkeys: the initial and final
 permutations, sixteen rounds, and padded texts in blocks of eight bytes.
 */
module Des {

  type Byte8 = bv8
  type Word = bv32

  /** What a round adds to one half, from the other half and two subkey words. */
  type Round = (Word, Word, Word) -> Word

  datatype Halves = Halves(x: Word, y: Word)

  // ---- Permutations ----

  /** Swaps the bits of `x >> n` and `y` that the mask picks. */
  function Exchange4(h: Halves): Halves {
    var t := ((h.x >> 4) ^ h.y) & 0x0F0F0F0F;
    Halves(h.x ^ (t << 4), h.y ^ t)
  }

  function Exchange16(h: Halves): Halves {
    var t := ((h.x >> 16) ^ h.y) & 0x0000FFFF;
    Halves(h.x ^ (t << 16), h.y ^ t)
  }

  function Exchange2(h: Halves): Halves {
    var t := ((h.y >> 2) ^ h.x) & 0x33333333;
    Halves(h.x ^ t, h.y ^ (t << 2))
  }

  function Exchange8(h: Halves): Halves {
    var t := ((h.y >> 8) ^ h.x) & 0x00FF00FF;
    Halves(h.x ^ t, h.y ^ (t << 8))
  }

  function Exchange1(h: Halves): Halves {
    var t := (h.x ^ h.y) & 0xAAAAAAAA;
    Halves(h.x ^ t, h.y ^ t)
  }

  function Left1(w: Word): Word {
    (w << 1) | (w >> 31)
  }

  function Right1(w: Word): Word {
    (w << 31) | (w >> 1)
  }

  /** DES_IP. */
  function Initial(h: Halves): Halves {
    var a := Exchange8(Exchange2(Exchange16(Exchange4(h))));
    var b := Exchange1(a.(y := Left1(a.y)));
    b.(x := Left1(b.x))
  }

  /** DES_FP. */
  function Final(h: Halves): Halves {
    var b := Exchange1(h.(x := Right1(h.x)));
    var a := b.(y := Right1(b.y));
    Exchange4(Exchange16(Exchange2(Exchange8(a))))
  }

  lemma {:induction false} Exchange4Twice(h: Halves)
    ensures Exchange4(Exchange4(h)) == h
  {
  }

  lemma {:induction false} Exchange16Twice(h: Halves)
    ensures Exchange16(Exchange16(h)) == h
  {
  }

  lemma {:induction false} Exchange2Twice(h: Halves)
    ensures Exchange2(Exchange2(h)) == h
  {
  }

  lemma {:induction false} Exchange8Twice(h: Halves)
    ensures Exchange8(Exchange8(h)) == h
  {
  }

  lemma {:induction false} Exchange1Twice(h: Halves)
    ensures Exchange1(Exchange1(h)) == h
  {
  }

  lemma {:induction false} Turns(w: Word)
    ensures Right1(Left1(w)) == w && Left1(Right1(w)) == w
  {
  }

  /** The final permutation undoes the initial one. */
  lemma {:induction false} FinalInitial(h: Halves)
    ensures Final(Initial(h)) == h
  {
    hide Exchange4, Exchange16, Exchange2, Exchange8, Exchange1, Left1, Right1;
    var h1 := Exchange4(h);
    var h2 := Exchange16(h1);
    var h3 := Exchange2(h2);
    var h4 := Exchange8(h3);
    var h5 := h4.(y := Left1(h4.y));
    var h6 := Exchange1(h5);
    Turns(h4.y);
    Turns(h6.x);
    Exchange1Twice(h5);
    Exchange8Twice(h3);
    Exchange2Twice(h2);
    Exchange16Twice(h1);
    Exchange4Twice(h);
  }

  /** And the other way round. */
  lemma {:induction false} InitialFinal(h: Halves)
    ensures Initial(Final(h)) == h
  {
    hide Exchange4, Exchange16, Exchange2, Exchange8, Exchange1, Left1, Right1;
    var h1 := h.(x := Right1(h.x));
    var h2 := Exchange1(h1);
    var h3 := h2.(y := Right1(h2.y));
    var h4 := Exchange8(h3);
    var h5 := Exchange2(h4);
    var h6 := Exchange16(h5);
    Exchange4Twice(h6);
    Exchange16Twice(h5);
    Exchange2Twice(h4);
    Exchange8Twice(h3);
    Turns(h2.y);
    Exchange1Twice(h1);
    Turns(h.x);
  }

  // ---- Rounds ----

  function Xor(a: Word, b: Word): Word {
    a ^ b
  }

  /** Two rounds: the second half changes the first, then the first the second. */
  function TwoRounds(f: Round, k0: Word, k1: Word, k2: Word, k3: Word, h: Halves): Halves {
    var x := Xor(h.x, f(h.y, k0, k1));
    Halves(x, Xor(h.y, f(x, k2, k3)))
  }

  function Rounds(f: Round, sk: seq<Word>, h: Halves): Halves {
    if |sk| < 4 then h else Rounds(f, sk[4..], TwoRounds(f, sk[0], sk[1], sk[2], sk[3], h))
  }

  function Swap(h: Halves): Halves {
    Halves(h.y, h.x)
  }

  /** The subkeys of decryption: pairs in reverse order. */
  function Reversed(sk: seq<Word>): seq<Word> {
    if |sk| < 2 then [] else Reversed(sk[2..]) + [sk[0], sk[1]]
  }

  lemma {:induction false} RoundsAppend(f: Round, a: seq<Word>, b: seq<Word>, h: Halves)
    requires |a| % 4 == 0
    ensures Rounds(f, a + b, h) == Rounds(f, b, Rounds(f, a, h))
    decreases |a|
  {
    hide TwoRounds;
    if |a| < 4 {
      assert a + b == b;
    } else {
      assert (a + b)[4..] == a[4..] + b;
      RoundsAppend(f, a[4..], b, TwoRounds(f, a[0], a[1], a[2], a[3], h));
    }
  }

  lemma {:induction false} XorTwice(a: Word, b: Word)
    ensures Xor(Xor(a, b), b) == a
  {
  }

  lemma {:induction false} TwoBack(f: Round, k0: Word, k1: Word, k2: Word, k3: Word, h: Halves)
    ensures TwoRounds(f, k2, k3, k0, k1, Swap(TwoRounds(f, k0, k1, k2, k3, h))) == Swap(h)
  {
    hide Xor;
    var x := Xor(h.x, f(h.y, k0, k1));
    XorTwice(h.y, f(x, k2, k3));
    XorTwice(h.x, f(h.y, k0, k1));
  }

  lemma {:induction false} ReversedFour(sk: seq<Word>)
    requires |sk| >= 4
    ensures Reversed(sk) == Reversed(sk[4..]) + [sk[2], sk[3], sk[0], sk[1]]
  {
    assert sk[2..][2..] == sk[4..];
    assert Reversed(sk[2..]) == Reversed(sk[4..]) + [sk[2], sk[3]];
  }

  lemma {:induction false} ReversedLength(sk: seq<Word>)
    requires |sk| % 2 == 0
    ensures |Reversed(sk)| == |sk|
  {
    if |sk| >= 2 { ReversedLength(sk[2..]); }
  }

  /** Under the reversed subkeys and with swapped halves the rounds run backwards. */
  lemma {:induction false} RoundsBack(f: Round, sk: seq<Word>, h: Halves)
    requires |sk| % 4 == 0
    ensures Rounds(f, Reversed(sk), Swap(Rounds(f, sk, h))) == Swap(h)
    decreases |sk|
  {
    if |sk| >= 4 {
      var next := TwoRounds(f, sk[0], sk[1], sk[2], sk[3], h);
      RoundsBack(f, sk[4..], next);
      ReversedFour(sk);
      ReversedLength(sk[4..]);
      TwoBack(f, sk[0], sk[1], sk[2], sk[3], h);
      hide TwoRounds, Swap, Reversed;
      var last := [sk[2], sk[3], sk[0], sk[1]];
      RoundsAppend(f, Reversed(sk[4..]), last, Swap(Rounds(f, sk, h)));
      assert Rounds(f, last, Swap(next)) == Rounds(f, last[4..], Swap(h));
    }
  }

  // ---- Blocks ----

  function Get(b: seq<Byte8>, i: nat): Word
    requires i + 4 <= |b|
  {
    ((b[i] as Word) << 24) | ((b[i + 1] as Word) << 16) | ((b[i + 2] as Word) << 8) | (b[i + 3] as Word)
  }

  function Put(w: Word): seq<Byte8> {
    [((w >> 24) & 0xFF) as Byte8, ((w >> 16) & 0xFF) as Byte8, ((w >> 8) & 0xFF) as Byte8, (w & 0xFF) as Byte8]
  }

  lemma {:induction false} GetPut(w: Word)
    ensures Get(Put(w), 0) == w
  {
  }

  lemma {:induction false} PutGet(b: seq<Byte8>, i: nat)
    requires i + 4 <= |b|
    ensures Put(Get(b, i)) == b[i..i + 4]
  {
  }

  /** `des_crypt`. */
  function Crypt(f: Round, sk: seq<Word>, input: seq<Byte8>): (output: seq<Byte8>)
    requires |input| == 8
    ensures |output| == 8
  {
    var h := Final(Swap(Rounds(f, sk, Initial(Halves(Get(input, 0), Get(input, 4))))));
    Put(h.x) + Put(h.y)
  }

  lemma {:induction false} GetBack(h: Halves)
    ensures var b := Put(h.x) + Put(h.y);
            Halves(Get(b, 0), Get(b, 4)) == h
  {
    var b := Put(h.x) + Put(h.y);
    GetPut(h.x);
    GetPut(h.y);
    GetShift(b, 0, Put(h.x));
    GetShift(b, 4, Put(h.y));
    hide Get, Put;
  }

  lemma {:induction false} GetShift(b: seq<Byte8>, i: nat, part: seq<Byte8>)
    requires i + 4 <= |b| && |part| == 4 && b[i..i + 4] == part
    ensures Get(b, i) == Get(part, 0)
  {
    assert forall k :: 0 <= k < 4 ==> part[k] == b[i + k];
  }

  /** Decryption of a block: the same code under the reversed subkeys. */
  lemma {:induction false} CryptBack(f: Round, sk: seq<Word>, input: seq<Byte8>)
    requires |input| == 8 && |sk| % 4 == 0
    ensures Crypt(f, Reversed(sk), Crypt(f, sk, input)) == input
  {
    var h := Halves(Get(input, 0), Get(input, 4));
    var mixed := Rounds(f, sk, Initial(h));
    GetBack(Final(Swap(mixed)));
    InitialFinal(Swap(mixed));
    RoundsBack(f, sk, Initial(h));
    assert Swap(Swap(Initial(h))) == Initial(h);
    FinalInitial(h);
    PutGet(input, 0);
    PutGet(input, 4);
    assert input == input[0..4] + input[4..8];
    hide Get, Put, Initial, Final, Rounds, Reversed, Swap;
  }
}
