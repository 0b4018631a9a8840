/**
 The block function of lsha1.c against section 6.1.2 of FIPS 180-4: sixteen words that are overwritten
 in a circle stand for the schedule of eighty, and a rotation of the register names for the moves.
 */
module Sha1Block {

  type Octet = bv8
  type Word = bv32

  datatype Registers = Registers(a: Word, b: Word, c: Word, d: Word, e: Word)

  function Rol1(w: Word): Word { (w << 1) | (w >> 31) }
  function Rol5(w: Word): Word { (w << 5) | (w >> 27) }
  function Rol8(w: Word): Word { (w << 8) | (w >> 24) }
  function Rol24(w: Word): Word { (w << 24) | (w >> 8) }
  function Rol30(w: Word): Word { (w << 30) | (w >> 2) }

  // ---- FIPS 180-4 ----

  function Ch(x: Word, y: Word, z: Word): Word { (x & y) ^ (!x & z) }
  function Parity(x: Word, y: Word, z: Word): Word { x ^ y ^ z }
  function Maj(x: Word, y: Word, z: Word): Word { (x & y) ^ (x & z) ^ (y & z) }

  /** Section 4.1.1. */
  function F(t: nat, x: Word, y: Word, z: Word): Word {
    if t < 20 then Ch(x, y, z)
    else if t < 40 then Parity(x, y, z)
    else if t < 60 then Maj(x, y, z)
    else Parity(x, y, z)
  }

  /** Section 4.2.1. */
  function K(t: nat): Word {
    if t < 20 then 0x5A827999 else if t < 40 then 0x6ED9EBA1 else if t < 60 then 0x8F1BBCDC else 0xCA62C1D6
  }

  function Big(p: Octet, q: Octet, r: Octet, s: Octet): Word {
    ((p as Word) << 24) | ((q as Word) << 16) | ((r as Word) << 8) | (s as Word)
  }

  function BigEndian(b: seq<Octet>, i: nat): Word
    requires i + 4 <= |b|
  {
    Big(b[i], b[i + 1], b[i + 2], b[i + 3])
  }

  function Mix(p: Word, q: Word, r: Word, s: Word): Word {
    Rol1(p ^ q ^ r ^ s)
  }

  /** The message schedule. */
  function W(block: seq<Octet>, t: nat): Word
    requires |block| == 64
  {
    if t < 16 then BigEndian(block, 4 * t)
    else Mix(W(block, t - 3), W(block, t - 8), W(block, t - 14), W(block, t - 16))
  }

  function Temporary(t: nat, r: Registers, w: Word): Word {
    Add5(Rol5(r.a), F(t, r.b, r.c, r.d), r.e, K(t), w)
  }

  /** Addition modulo 2^32. */
  function Add5(a: Word, f: Word, e: Word, k: Word, w: Word): Word { a + f + e + k + w }

  function Step(t: nat, r: Registers, w: Word): Registers {
    Registers(Temporary(t, r, w), r.a, Rol30(r.b), r.c, r.d)
  }

  function Steps(block: seq<Octet>, t: nat, r: Registers): Registers
    requires |block| == 64
  {
    if t == 0 then r else Step(t - 1, Steps(block, t - 1, r), W(block, t - 1))
  }

  function Sum(r: Registers, s: Registers): Registers {
    Registers(Plus(r.a, s.a), Plus(r.b, s.b), Plus(r.c, s.c), Plus(r.d, s.d), Plus(r.e, s.e))
  }

  function Plus(a: Word, b: Word): Word { a + b }

  /** The next hash value from a 64-byte block. */
  function Compress(h: Registers, block: seq<Octet>): Registers
    requires |block| == 64
  {
    Sum(h, Steps(block, 80, h))
  }

  // ---- The program's forms ----

  function Little(p: Octet, q: Octet, r: Octet, s: Octet): Word {
    (p as Word) | ((q as Word) << 8) | ((r as Word) << 16) | ((s as Word) << 24)
  }

  /** A word as a little-endian machine loads it. */
  function LittleEndian(b: seq<Octet>, i: nat): Word
    requires i + 4 <= |b|
  {
    Little(b[i], b[i + 1], b[i + 2], b[i + 3])
  }

  /** blk0: turns the bytes of a word round. */
  function Blk0(l: Word): Word {
    (Rol24(l) & 0xFF00FF00) | (Rol8(l) & 0x00FF00FF)
  }

  lemma {:induction false} Blk0Turns(p: Octet, q: Octet, r: Octet, s: Octet)
    ensures Blk0(Little(p, q, r, s)) == Big(p, q, r, s)
  {
  }

  lemma {:induction false} Blk0Is(b: seq<Octet>, i: nat)
    requires i + 4 <= |b|
    ensures Blk0(LittleEndian(b, i)) == BigEndian(b, i)
  {
    hide Blk0, Little, Big;
    Blk0Turns(b[i], b[i + 1], b[i + 2], b[i + 3]);
  }

  function MacroCh(w: Word, x: Word, y: Word): Word { (w & (x ^ y)) ^ y }
  function MacroMaj(w: Word, x: Word, y: Word): Word { ((w | x) & y) | (w & x) }

  /** The function of the macros R0 to R4. */
  function MacroF(t: nat, w: Word, x: Word, y: Word): Word {
    if t < 20 then MacroCh(w, x, y)
    else if t < 40 then Parity(w, x, y)
    else if t < 60 then MacroMaj(w, x, y)
    else Parity(w, x, y)
  }

  lemma {:induction false} ChForms(w: Word, x: Word, y: Word)
    ensures (w & (x ^ y)) ^ y == (w & x) ^ (!w & y)
  {
  }

  lemma {:induction false} MajForms(w: Word, x: Word, y: Word)
    ensures ((w | x) & y) | (w & x) == (w & x) ^ (w & y) ^ (x & y)
  {
  }

  lemma {:induction false} MacroChIs(w: Word, x: Word, y: Word)
    ensures MacroCh(w, x, y) == Ch(w, x, y)
  {
    ChForms(w, x, y);
  }

  lemma {:induction false} MacroMajIs(w: Word, x: Word, y: Word)
    ensures MacroMaj(w, x, y) == Maj(w, x, y)
  {
    MajForms(w, x, y);
  }


  lemma {:induction false} MacroFIs(t: nat, w: Word, x: Word, y: Word)
    ensures MacroF(t, w, x, y) == F(t, w, x, y)
  {
    hide MacroCh, Ch, MacroMaj, Maj, Parity;
    MacroChIs(w, x, y);
    MacroMajIs(w, x, y);
  }

  /** R0 to R4: what is added to `z`. */
  function MacroSum(t: nat, r: Registers, w: Word): Word {
    AddMacro(Rol5(r.a), MacroF(t, r.b, r.c, r.d), r.e, K(t), w)
  }

  function AddMacro(a: Word, f: Word, e: Word, k: Word, w: Word): Word { e + (f + w + k + a) }

  lemma {:induction false} AddOrder(a: Word, f: Word, e: Word, k: Word, w: Word)
    ensures AddMacro(a, f, e, k, w) == Add5(a, f, e, k, w)
  {
  }

  lemma {:induction false} MacroSumIs(t: nat, r: Registers, w: Word)
    ensures MacroSum(t, r, w) == Temporary(t, r, w)
  {
    hide MacroF, F, Rol5, K, Add5, AddMacro;
    MacroFIs(t, r.b, r.c, r.d);
    AddOrder(Rol5(r.a), F(t, r.b, r.c, r.d), r.e, K(t), w);
  }

  // ---- Sixteen words for eighty ----

  /** Before step `i` the circle holds the last sixteen words of the schedule and, at first, the words
      of the block that have not been turned round yet. */
  ghost predicate Circle(l: seq<Word>, block: seq<Octet>, i: nat) {
    && |l| == 16 && |block| == 64
    && (forall j :: 0 <= j < i && i - 16 <= j ==> l[j % 16] == W(block, j))
    && (forall j :: i <= j < 16 ==> l[j] == LittleEndian(block, 4 * j))
  }

  /** blk0 and blk: the word that step `i` stores. */
  function NextWord(l: seq<Word>, i: nat): Word
    requires |l| == 16
  {
    if i < 16 then Blk0(l[i]) else Mix(l[(i + 13) % 16], l[(i + 8) % 16], l[(i + 2) % 16], l[i % 16])
  }

  lemma {:induction false} CircleNext(l: seq<Word>, block: seq<Octet>, i: nat)
    requires Circle(l, block, i)
    ensures NextWord(l, i) == W(block, i)
  {
    hide Blk0, LittleEndian, BigEndian, Mix;
    if i < 16 {
      Blk0Is(block, 4 * i);
    } else {
      assert (i + 13) % 16 == (i - 3) % 16 && (i + 8) % 16 == (i - 8) % 16 && (i + 2) % 16 == (i - 14) % 16;
      assert i % 16 == (i - 16) % 16;
    }
  }

  lemma {:induction false} CircleKeeps(l: seq<Word>, block: seq<Octet>, i: nat)
    requires Circle(l, block, i)
    ensures Circle(l[i % 16 := W(block, i)], block, i + 1)
  {
    hide W, LittleEndian;
    var l' := l[i % 16 := W(block, i)];
    forall j | 0 <= j < i + 1 && i + 1 - 16 <= j ensures l'[j % 16] == W(block, j) {
      if j < i { assert j % 16 != i % 16; }
    }
  }

  lemma {:induction false} CircleStart(l: seq<Word>, block: seq<Octet>)
    requires |l| == 16 && |block| == 64 && forall j :: 0 <= j < 16 ==> l[j] == LittleEndian(block, 4 * j)
    ensures Circle(l, block, 0)
  {
  }

  function StateOf(s: seq<Word>): Registers
    requires |s| == 5
  {
    Registers(s[0], s[1], s[2], s[3], s[4])
  }

  lemma {:induction false} StepsNext(block: seq<Octet>, t: nat, h: Registers)
    requires |block| == 64
    ensures Steps(block, 0, h) == h
    ensures Steps(block, t + 1, h) == Step(t, Steps(block, t, h), W(block, t))
  {
  }

  /** The eighty operations, on a copy of the block. */
  method Operations(buffer: seq<Octet>, h: Registers) returns (r: Registers)
    requires |buffer| == 64
    ensures r == Steps(buffer, 80, h)
  {
    var block := new Word[16](i requires 0 <= i < 16 => LittleEndian(buffer, 4 * i));
    CircleStart(block[..], buffer);
    r := h;
    hide *;
    StepsNext(buffer, 0, h);
    for i := 0 to 80
      invariant Circle(block[..], buffer, i) && r == Steps(buffer, i, h)
    {
      ghost var l := block[..];
      CircleNext(l, buffer, i);
      CircleKeeps(l, buffer, i);
      var word := NextWord(block[..], i);
      block[i % 16] := word;
      assert block[..] == l[i % 16 := word];
      StepIs(i, r, word);
      StepsNext(buffer, i, h);
      r := Registers(MacroSum(i, r, word), r.a, Rol30(r.b), r.c, r.d);
    }
  }

  /** `SHA1_Transform`. */
  method Transform(state: array<Word>, buffer: seq<Octet>)
    requires state.Length == 5 && |buffer| == 64
    modifies state
    ensures StateOf(state[..]) == Compress(StateOf(old(state[..])), buffer)
  {
    hide Steps, Plus;
    var r := Operations(buffer, Registers(state[0], state[1], state[2], state[3], state[4]));
    state[0] := Plus(state[0], r.a);
    state[1] := Plus(state[1], r.b);
    state[2] := Plus(state[2], r.c);
    state[3] := Plus(state[3], r.d);
    state[4] := Plus(state[4], r.e);
  }

  lemma {:induction false} StepIs(t: nat, r: Registers, w: Word)
    ensures Step(t, r, w) == Registers(MacroSum(t, r, w), r.a, Rol30(r.b), r.c, r.d)
  {
    MacroSumIs(t, r, w);
    hide MacroSum, Temporary, Rol30;
  }
}
