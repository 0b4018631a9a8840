/**
 The block cipher against FIPS PUB 46-3: the initial permutation bit by bit, the sixteen
 rounds as one recurrence, and the whole block.
 */
module DesStandard {

  import opened Des

  // ---- Bits ----

  /** Bit j of a word, the highest one first. */
  predicate Bit(w: Word, j: nat)
    requires j < 32
  {
    match j
    case 0 => w & 0x80000000 != 0
    case 1 => w & 0x40000000 != 0
    case 2 => w & 0x20000000 != 0
    case 3 => w & 0x10000000 != 0
    case 4 => w & 0x08000000 != 0
    case 5 => w & 0x04000000 != 0
    case 6 => w & 0x02000000 != 0
    case 7 => w & 0x01000000 != 0
    case 8 => w & 0x00800000 != 0
    case 9 => w & 0x00400000 != 0
    case 10 => w & 0x00200000 != 0
    case 11 => w & 0x00100000 != 0
    case 12 => w & 0x00080000 != 0
    case 13 => w & 0x00040000 != 0
    case 14 => w & 0x00020000 != 0
    case 15 => w & 0x00010000 != 0
    case 16 => w & 0x00008000 != 0
    case 17 => w & 0x00004000 != 0
    case 18 => w & 0x00002000 != 0
    case 19 => w & 0x00001000 != 0
    case 20 => w & 0x00000800 != 0
    case 21 => w & 0x00000400 != 0
    case 22 => w & 0x00000200 != 0
    case 23 => w & 0x00000100 != 0
    case 24 => w & 0x00000080 != 0
    case 25 => w & 0x00000040 != 0
    case 26 => w & 0x00000020 != 0
    case 27 => w & 0x00000010 != 0
    case 28 => w & 0x00000008 != 0
    case 29 => w & 0x00000004 != 0
    case 30 => w & 0x00000002 != 0
    case _ => w & 0x00000001 != 0
  }

  lemma {:induction false} BitIs0(w: Word)
    ensures Bit(w, 0) <==> w & 0x80000000 != 0
    ensures Bit(w, 1) <==> w & 0x40000000 != 0
    ensures Bit(w, 2) <==> w & 0x20000000 != 0
    ensures Bit(w, 3) <==> w & 0x10000000 != 0
    ensures Bit(w, 4) <==> w & 0x08000000 != 0
    ensures Bit(w, 5) <==> w & 0x04000000 != 0
    ensures Bit(w, 6) <==> w & 0x02000000 != 0
    ensures Bit(w, 7) <==> w & 0x01000000 != 0
  {
  }

  lemma {:induction false} BitIs1(w: Word)
    ensures Bit(w, 8) <==> w & 0x00800000 != 0
    ensures Bit(w, 9) <==> w & 0x00400000 != 0
    ensures Bit(w, 10) <==> w & 0x00200000 != 0
    ensures Bit(w, 11) <==> w & 0x00100000 != 0
    ensures Bit(w, 12) <==> w & 0x00080000 != 0
    ensures Bit(w, 13) <==> w & 0x00040000 != 0
    ensures Bit(w, 14) <==> w & 0x00020000 != 0
    ensures Bit(w, 15) <==> w & 0x00010000 != 0
  {
  }

  lemma {:induction false} BitIs2(w: Word)
    ensures Bit(w, 16) <==> w & 0x00008000 != 0
    ensures Bit(w, 17) <==> w & 0x00004000 != 0
    ensures Bit(w, 18) <==> w & 0x00002000 != 0
    ensures Bit(w, 19) <==> w & 0x00001000 != 0
    ensures Bit(w, 20) <==> w & 0x00000800 != 0
    ensures Bit(w, 21) <==> w & 0x00000400 != 0
    ensures Bit(w, 22) <==> w & 0x00000200 != 0
    ensures Bit(w, 23) <==> w & 0x00000100 != 0
  {
  }

  lemma {:induction false} BitIs3(w: Word)
    ensures Bit(w, 24) <==> w & 0x00000080 != 0
    ensures Bit(w, 25) <==> w & 0x00000040 != 0
    ensures Bit(w, 26) <==> w & 0x00000020 != 0
    ensures Bit(w, 27) <==> w & 0x00000010 != 0
    ensures Bit(w, 28) <==> w & 0x00000008 != 0
    ensures Bit(w, 29) <==> w & 0x00000004 != 0
    ensures Bit(w, 30) <==> w & 0x00000002 != 0
    ensures Bit(w, 31) <==> w & 0x00000001 != 0
  {
  }

  lemma {:induction false} BitIs(w: Word)
    ensures Bit(w, 0) <==> w & 0x80000000 != 0
    ensures Bit(w, 1) <==> w & 0x40000000 != 0
    ensures Bit(w, 2) <==> w & 0x20000000 != 0
    ensures Bit(w, 3) <==> w & 0x10000000 != 0
    ensures Bit(w, 4) <==> w & 0x08000000 != 0
    ensures Bit(w, 5) <==> w & 0x04000000 != 0
    ensures Bit(w, 6) <==> w & 0x02000000 != 0
    ensures Bit(w, 7) <==> w & 0x01000000 != 0
    ensures Bit(w, 8) <==> w & 0x00800000 != 0
    ensures Bit(w, 9) <==> w & 0x00400000 != 0
    ensures Bit(w, 10) <==> w & 0x00200000 != 0
    ensures Bit(w, 11) <==> w & 0x00100000 != 0
    ensures Bit(w, 12) <==> w & 0x00080000 != 0
    ensures Bit(w, 13) <==> w & 0x00040000 != 0
    ensures Bit(w, 14) <==> w & 0x00020000 != 0
    ensures Bit(w, 15) <==> w & 0x00010000 != 0
    ensures Bit(w, 16) <==> w & 0x00008000 != 0
    ensures Bit(w, 17) <==> w & 0x00004000 != 0
    ensures Bit(w, 18) <==> w & 0x00002000 != 0
    ensures Bit(w, 19) <==> w & 0x00001000 != 0
    ensures Bit(w, 20) <==> w & 0x00000800 != 0
    ensures Bit(w, 21) <==> w & 0x00000400 != 0
    ensures Bit(w, 22) <==> w & 0x00000200 != 0
    ensures Bit(w, 23) <==> w & 0x00000100 != 0
    ensures Bit(w, 24) <==> w & 0x00000080 != 0
    ensures Bit(w, 25) <==> w & 0x00000040 != 0
    ensures Bit(w, 26) <==> w & 0x00000020 != 0
    ensures Bit(w, 27) <==> w & 0x00000010 != 0
    ensures Bit(w, 28) <==> w & 0x00000008 != 0
    ensures Bit(w, 29) <==> w & 0x00000004 != 0
    ensures Bit(w, 30) <==> w & 0x00000002 != 0
    ensures Bit(w, 31) <==> w & 0x00000001 != 0
  {
    hide Bit;
    BitIs0(w);
    BitIs1(w);
    BitIs2(w);
    BitIs3(w);
  }

  /** The bits of a block, counted from 0. */
  predicate BlockBit(h: Halves, k: nat)
    requires k < 64
  {
    if k < 32 then Bit(h.x, k) else Bit(h.y, k - 32)
  }

  // ---- The initial permutation ----

  /** The table IP of the standard, which counts bits from 1. */
  function IP(k: nat): (j: nat)
    requires k < 64
    ensures 1 <= j <= 64
  {
    match k
    case 0 => 58 case 1 => 50 case 2 => 42 case 3 => 34 case 4 => 26 case 5 => 18 case 6 => 10 case 7 => 2
    case 8 => 60 case 9 => 52 case 10 => 44 case 11 => 36 case 12 => 28 case 13 => 20 case 14 => 12 case 15 => 4
    case 16 => 62 case 17 => 54 case 18 => 46 case 19 => 38 case 20 => 30 case 21 => 22 case 22 => 14 case 23 => 6
    case 24 => 64 case 25 => 56 case 26 => 48 case 27 => 40 case 28 => 32 case 29 => 24 case 30 => 16 case 31 => 8
    case 32 => 57 case 33 => 49 case 34 => 41 case 35 => 33 case 36 => 25 case 37 => 17 case 38 => 9 case 39 => 1
    case 40 => 59 case 41 => 51 case 42 => 43 case 43 => 35 case 44 => 27 case 45 => 19 case 46 => 11 case 47 => 3
    case 48 => 61 case 49 => 53 case 50 => 45 case 51 => 37 case 52 => 29 case 53 => 21 case 54 => 13 case 55 => 5
    case 56 => 63 case 57 => 55 case 58 => 47 case 59 => 39 case 60 => 31 case 61 => 23 case 62 => 15 case _ => 7
  }

  /** The program keeps both halves turned left by one bit during the rounds. */
  function Turned(k: nat): (j: nat)
    requires k < 64
    ensures j < 64
  {
    if k % 32 == 0 then k + 31 else k - 1
  }

  lemma {:induction false} Row0(h: Halves)
    ensures var o := Initial(h);
            && (o.x & 0x00000001 != 0 <==> h.y & 0x00000040 != 0)
            && (o.x & 0x80000000 != 0 <==> h.y & 0x00004000 != 0)
            && (o.x & 0x40000000 != 0 <==> h.y & 0x00400000 != 0)
            && (o.x & 0x20000000 != 0 <==> h.y & 0x40000000 != 0)
            && (o.x & 0x10000000 != 0 <==> h.x & 0x00000040 != 0)
            && (o.x & 0x08000000 != 0 <==> h.x & 0x00004000 != 0)
            && (o.x & 0x04000000 != 0 <==> h.x & 0x00400000 != 0)
            && (o.x & 0x02000000 != 0 <==> h.x & 0x40000000 != 0)
  {
  }

  lemma {:induction false} RowBits0(h: Halves)
    ensures BlockBit(Initial(h), 31) == BlockBit(h, 57)
    ensures BlockBit(Initial(h), 0) == BlockBit(h, 49)
    ensures BlockBit(Initial(h), 1) == BlockBit(h, 41)
    ensures BlockBit(Initial(h), 2) == BlockBit(h, 33)
    ensures BlockBit(Initial(h), 3) == BlockBit(h, 25)
    ensures BlockBit(Initial(h), 4) == BlockBit(h, 17)
    ensures BlockBit(Initial(h), 5) == BlockBit(h, 9)
    ensures BlockBit(Initial(h), 6) == BlockBit(h, 1)
  {
    hide Initial, Bit;
    Row0(h);
    BitIs(h.x);
    BitIs(h.y);
    BitIs(Initial(h).x);
  }

  lemma {:induction false} Row1(h: Halves)
    ensures var o := Initial(h);
            && (o.x & 0x01000000 != 0 <==> h.y & 0x00000010 != 0)
            && (o.x & 0x00800000 != 0 <==> h.y & 0x00001000 != 0)
            && (o.x & 0x00400000 != 0 <==> h.y & 0x00100000 != 0)
            && (o.x & 0x00200000 != 0 <==> h.y & 0x10000000 != 0)
            && (o.x & 0x00100000 != 0 <==> h.x & 0x00000010 != 0)
            && (o.x & 0x00080000 != 0 <==> h.x & 0x00001000 != 0)
            && (o.x & 0x00040000 != 0 <==> h.x & 0x00100000 != 0)
            && (o.x & 0x00020000 != 0 <==> h.x & 0x10000000 != 0)
  {
  }

  lemma {:induction false} RowBits1(h: Halves)
    ensures BlockBit(Initial(h), 7) == BlockBit(h, 59)
    ensures BlockBit(Initial(h), 8) == BlockBit(h, 51)
    ensures BlockBit(Initial(h), 9) == BlockBit(h, 43)
    ensures BlockBit(Initial(h), 10) == BlockBit(h, 35)
    ensures BlockBit(Initial(h), 11) == BlockBit(h, 27)
    ensures BlockBit(Initial(h), 12) == BlockBit(h, 19)
    ensures BlockBit(Initial(h), 13) == BlockBit(h, 11)
    ensures BlockBit(Initial(h), 14) == BlockBit(h, 3)
  {
    hide Initial, Bit;
    Row1(h);
    BitIs(h.x);
    BitIs(h.y);
    BitIs(Initial(h).x);
  }

  lemma {:induction false} Row2(h: Halves)
    ensures var o := Initial(h);
            && (o.x & 0x00010000 != 0 <==> h.y & 0x00000004 != 0)
            && (o.x & 0x00008000 != 0 <==> h.y & 0x00000400 != 0)
            && (o.x & 0x00004000 != 0 <==> h.y & 0x00040000 != 0)
            && (o.x & 0x00002000 != 0 <==> h.y & 0x04000000 != 0)
            && (o.x & 0x00001000 != 0 <==> h.x & 0x00000004 != 0)
            && (o.x & 0x00000800 != 0 <==> h.x & 0x00000400 != 0)
            && (o.x & 0x00000400 != 0 <==> h.x & 0x00040000 != 0)
            && (o.x & 0x00000200 != 0 <==> h.x & 0x04000000 != 0)
  {
  }

  lemma {:induction false} RowBits2(h: Halves)
    ensures BlockBit(Initial(h), 15) == BlockBit(h, 61)
    ensures BlockBit(Initial(h), 16) == BlockBit(h, 53)
    ensures BlockBit(Initial(h), 17) == BlockBit(h, 45)
    ensures BlockBit(Initial(h), 18) == BlockBit(h, 37)
    ensures BlockBit(Initial(h), 19) == BlockBit(h, 29)
    ensures BlockBit(Initial(h), 20) == BlockBit(h, 21)
    ensures BlockBit(Initial(h), 21) == BlockBit(h, 13)
    ensures BlockBit(Initial(h), 22) == BlockBit(h, 5)
  {
    hide Initial, Bit;
    Row2(h);
    BitIs(h.x);
    BitIs(h.y);
    BitIs(Initial(h).x);
  }

  lemma {:induction false} Row3(h: Halves)
    ensures var o := Initial(h);
            && (o.x & 0x00000100 != 0 <==> h.y & 0x00000001 != 0)
            && (o.x & 0x00000080 != 0 <==> h.y & 0x00000100 != 0)
            && (o.x & 0x00000040 != 0 <==> h.y & 0x00010000 != 0)
            && (o.x & 0x00000020 != 0 <==> h.y & 0x01000000 != 0)
            && (o.x & 0x00000010 != 0 <==> h.x & 0x00000001 != 0)
            && (o.x & 0x00000008 != 0 <==> h.x & 0x00000100 != 0)
            && (o.x & 0x00000004 != 0 <==> h.x & 0x00010000 != 0)
            && (o.x & 0x00000002 != 0 <==> h.x & 0x01000000 != 0)
  {
  }

  lemma {:induction false} RowBits3(h: Halves)
    ensures BlockBit(Initial(h), 23) == BlockBit(h, 63)
    ensures BlockBit(Initial(h), 24) == BlockBit(h, 55)
    ensures BlockBit(Initial(h), 25) == BlockBit(h, 47)
    ensures BlockBit(Initial(h), 26) == BlockBit(h, 39)
    ensures BlockBit(Initial(h), 27) == BlockBit(h, 31)
    ensures BlockBit(Initial(h), 28) == BlockBit(h, 23)
    ensures BlockBit(Initial(h), 29) == BlockBit(h, 15)
    ensures BlockBit(Initial(h), 30) == BlockBit(h, 7)
  {
    hide Initial, Bit;
    Row3(h);
    BitIs(h.x);
    BitIs(h.y);
    BitIs(Initial(h).x);
  }

  lemma {:induction false} Row4(h: Halves)
    ensures var o := Initial(h);
            && (o.y & 0x00000001 != 0 <==> h.y & 0x00000080 != 0)
            && (o.y & 0x80000000 != 0 <==> h.y & 0x00008000 != 0)
            && (o.y & 0x40000000 != 0 <==> h.y & 0x00800000 != 0)
            && (o.y & 0x20000000 != 0 <==> h.y & 0x80000000 != 0)
            && (o.y & 0x10000000 != 0 <==> h.x & 0x00000080 != 0)
            && (o.y & 0x08000000 != 0 <==> h.x & 0x00008000 != 0)
            && (o.y & 0x04000000 != 0 <==> h.x & 0x00800000 != 0)
            && (o.y & 0x02000000 != 0 <==> h.x & 0x80000000 != 0)
  {
  }

  lemma {:induction false} RowBits4(h: Halves)
    ensures BlockBit(Initial(h), 63) == BlockBit(h, 56)
    ensures BlockBit(Initial(h), 32) == BlockBit(h, 48)
    ensures BlockBit(Initial(h), 33) == BlockBit(h, 40)
    ensures BlockBit(Initial(h), 34) == BlockBit(h, 32)
    ensures BlockBit(Initial(h), 35) == BlockBit(h, 24)
    ensures BlockBit(Initial(h), 36) == BlockBit(h, 16)
    ensures BlockBit(Initial(h), 37) == BlockBit(h, 8)
    ensures BlockBit(Initial(h), 38) == BlockBit(h, 0)
  {
    hide Initial, Bit;
    Row4(h);
    BitIs(h.x);
    BitIs(h.y);
    BitIs(Initial(h).y);
  }

  lemma {:induction false} Row5(h: Halves)
    ensures var o := Initial(h);
            && (o.y & 0x01000000 != 0 <==> h.y & 0x00000020 != 0)
            && (o.y & 0x00800000 != 0 <==> h.y & 0x00002000 != 0)
            && (o.y & 0x00400000 != 0 <==> h.y & 0x00200000 != 0)
            && (o.y & 0x00200000 != 0 <==> h.y & 0x20000000 != 0)
            && (o.y & 0x00100000 != 0 <==> h.x & 0x00000020 != 0)
            && (o.y & 0x00080000 != 0 <==> h.x & 0x00002000 != 0)
            && (o.y & 0x00040000 != 0 <==> h.x & 0x00200000 != 0)
            && (o.y & 0x00020000 != 0 <==> h.x & 0x20000000 != 0)
  {
  }

  lemma {:induction false} RowBits5(h: Halves)
    ensures BlockBit(Initial(h), 39) == BlockBit(h, 58)
    ensures BlockBit(Initial(h), 40) == BlockBit(h, 50)
    ensures BlockBit(Initial(h), 41) == BlockBit(h, 42)
    ensures BlockBit(Initial(h), 42) == BlockBit(h, 34)
    ensures BlockBit(Initial(h), 43) == BlockBit(h, 26)
    ensures BlockBit(Initial(h), 44) == BlockBit(h, 18)
    ensures BlockBit(Initial(h), 45) == BlockBit(h, 10)
    ensures BlockBit(Initial(h), 46) == BlockBit(h, 2)
  {
    hide Initial, Bit;
    Row5(h);
    BitIs(h.x);
    BitIs(h.y);
    BitIs(Initial(h).y);
  }

  lemma {:induction false} Row6(h: Halves)
    ensures var o := Initial(h);
            && (o.y & 0x00010000 != 0 <==> h.y & 0x00000008 != 0)
            && (o.y & 0x00008000 != 0 <==> h.y & 0x00000800 != 0)
            && (o.y & 0x00004000 != 0 <==> h.y & 0x00080000 != 0)
            && (o.y & 0x00002000 != 0 <==> h.y & 0x08000000 != 0)
            && (o.y & 0x00001000 != 0 <==> h.x & 0x00000008 != 0)
            && (o.y & 0x00000800 != 0 <==> h.x & 0x00000800 != 0)
            && (o.y & 0x00000400 != 0 <==> h.x & 0x00080000 != 0)
            && (o.y & 0x00000200 != 0 <==> h.x & 0x08000000 != 0)
  {
  }

  lemma {:induction false} RowBits6(h: Halves)
    ensures BlockBit(Initial(h), 47) == BlockBit(h, 60)
    ensures BlockBit(Initial(h), 48) == BlockBit(h, 52)
    ensures BlockBit(Initial(h), 49) == BlockBit(h, 44)
    ensures BlockBit(Initial(h), 50) == BlockBit(h, 36)
    ensures BlockBit(Initial(h), 51) == BlockBit(h, 28)
    ensures BlockBit(Initial(h), 52) == BlockBit(h, 20)
    ensures BlockBit(Initial(h), 53) == BlockBit(h, 12)
    ensures BlockBit(Initial(h), 54) == BlockBit(h, 4)
  {
    hide Initial, Bit;
    Row6(h);
    BitIs(h.x);
    BitIs(h.y);
    BitIs(Initial(h).y);
  }

  lemma {:induction false} Row7(h: Halves)
    ensures var o := Initial(h);
            && (o.y & 0x00000100 != 0 <==> h.y & 0x00000002 != 0)
            && (o.y & 0x00000080 != 0 <==> h.y & 0x00000200 != 0)
            && (o.y & 0x00000040 != 0 <==> h.y & 0x00020000 != 0)
            && (o.y & 0x00000020 != 0 <==> h.y & 0x02000000 != 0)
            && (o.y & 0x00000010 != 0 <==> h.x & 0x00000002 != 0)
            && (o.y & 0x00000008 != 0 <==> h.x & 0x00000200 != 0)
            && (o.y & 0x00000004 != 0 <==> h.x & 0x00020000 != 0)
            && (o.y & 0x00000002 != 0 <==> h.x & 0x02000000 != 0)
  {
  }

  lemma {:induction false} RowBits7(h: Halves)
    ensures BlockBit(Initial(h), 55) == BlockBit(h, 62)
    ensures BlockBit(Initial(h), 56) == BlockBit(h, 54)
    ensures BlockBit(Initial(h), 57) == BlockBit(h, 46)
    ensures BlockBit(Initial(h), 58) == BlockBit(h, 38)
    ensures BlockBit(Initial(h), 59) == BlockBit(h, 30)
    ensures BlockBit(Initial(h), 60) == BlockBit(h, 22)
    ensures BlockBit(Initial(h), 61) == BlockBit(h, 14)
    ensures BlockBit(Initial(h), 62) == BlockBit(h, 6)
  {
    hide Initial, Bit;
    Row7(h);
    BitIs(h.x);
    BitIs(h.y);
    BitIs(Initial(h).y);
  }

  /** DES_IP is the initial permutation of the standard, for every block and every bit. */
  lemma {:induction false} InitialTable(h: Halves, k: nat)
    requires k < 64
    ensures BlockBit(Initial(h), Turned(k)) == BlockBit(h, IP(k) - 1)
  {
    hide Initial, Bit, BlockBit;
    match k / 8
    case 0 => RowBits0(h);
    case 1 => RowBits1(h);
    case 2 => RowBits2(h);
    case 3 => RowBits3(h);
    case 4 => RowBits4(h);
    case 5 => RowBits5(h);
    case 6 => RowBits6(h);
    case _ => RowBits7(h);
  }

  // ---- Rounds and blocks ----

  /** In each of the two rounds one half takes up the round function of the other. */
  lemma {:induction false} RoundStep(f: Round, k0: Word, k1: Word, k2: Word, k3: Word, h: Halves)
    ensures TwoRounds(f, k0, k1, k2, k3, h).x ^ h.x == f(h.y, k0, k1)
    ensures TwoRounds(f, k0, k1, k2, k3, h).y ^ h.y == f(TwoRounds(f, k0, k1, k2, k3, h).x, k2, k3)
  {
  }

  /** One round of the standard: the new half from the old two and a pair of subkey words. */
  predicate Follows(f: Round, k0: Word, k1: Word, left: Word, right: Word, next: Word) {
    next ^ left == f(right, k0, k1)
  }

  lemma {:induction false} StepFollows(f: Round, k0: Word, k1: Word, k2: Word, k3: Word, h: Halves)
    ensures var n := TwoRounds(f, k0, k1, k2, k3, h);
            Follows(f, k0, k1, h.x, h.y, n.x) && Follows(f, k2, k3, h.y, n.x, n.y)
  {
    hide TwoRounds;
    RoundStep(f, k0, k1, k2, k3, h);
  }

  /**
   The halves of the standard: with `z[i]` as L and `z[i + 1]` as R of round i, the next R is
   L combined with the round function of R and the next pair of subkey words.
   */
  predicate Recurrence(f: Round, sk: seq<Word>, z: seq<Word>) {
    && |z| == |sk| / 2 + 2
    && forall i | 0 <= i < |sk| / 2 :: Follows(f, sk[2 * i], sk[2 * i + 1], z[i], z[i + 1], z[i + 2])
  }

  lemma {:induction false} RecurrenceNext(f: Round, sk: seq<Word>, h: Halves, z: seq<Word>)
    requires |sk| % 4 == 0 && |sk| >= 4
    requires Recurrence(f, sk[4..], z)
    requires TwoRounds(f, sk[0], sk[1], sk[2], sk[3], h) == Halves(z[0], z[1])
    ensures Recurrence(f, sk, [h.x, h.y] + z)
  {
    hide TwoRounds, Follows;
    StepFollows(f, sk[0], sk[1], sk[2], sk[3], h);
    var all := [h.x, h.y] + z;
    forall i | 0 <= i < |sk| / 2
      ensures Follows(f, sk[2 * i], sk[2 * i + 1], all[i], all[i + 1], all[i + 2])
    {
      if i >= 2 {
        var j := i - 2;
        assert sk[4..][2 * j] == sk[2 * i] && sk[4..][2 * j + 1] == sk[2 * i + 1];
        assert Follows(f, sk[4..][2 * j], sk[4..][2 * j + 1], z[j], z[j + 1], z[j + 2]);
      }
    }
  }

  /** The rounds take one step of the recurrence for every pair of subkey words, in order. */
  lemma {:induction false} RoundsFollow(f: Round, sk: seq<Word>, h: Halves) returns (z: seq<Word>)
    requires |sk| % 4 == 0
    ensures Recurrence(f, sk, z) && z[0] == h.x && z[1] == h.y
    ensures Rounds(f, sk, h) == Halves(z[|z| - 2], z[|z| - 1])
    decreases |sk|
  {
    if |sk| < 4 {
      z := [h.x, h.y];
    } else {
      hide TwoRounds;
      var next := TwoRounds(f, sk[0], sk[1], sk[2], sk[3], h);
      var rest := RoundsFollow(f, sk[4..], next);
      RecurrenceNext(f, sk, h, rest);
      z := [h.x, h.y] + rest;
      hide Recurrence;
    }
  }

  /** A word read from a block has its first byte highest. */
  lemma {:induction false} GetBytes(b: seq<Byte8>, i: nat)
    requires i + 4 <= |b|
    ensures Get(b, i) >> 24 == b[i] as Word
    ensures (Get(b, i) >> 16) & 0xFF == b[i + 1] as Word
    ensures (Get(b, i) >> 8) & 0xFF == b[i + 2] as Word
    ensures Get(b, i) & 0xFF == b[i + 3] as Word
  {
  }

  /**
   One block: the permuted input starts the recurrence, sixteen rounds with the 32 subkey
   words follow, and the permuted output is the last two words, exchanged.
   */
  lemma {:induction false} BlockCipher(f: Round, sk: seq<Word>, input: seq<Byte8>) returns (z: seq<Word>)
    requires |input| == 8 && |sk| == 32
    ensures |z| == 18 && Recurrence(f, sk, z)
    ensures Initial(Halves(Get(input, 0), Get(input, 4))) == Halves(z[0], z[1])
    ensures var output := Crypt(f, sk, input);
            Initial(Halves(Get(output, 0), Get(output, 4))) == Halves(z[17], z[16])
  {
    var start := Initial(Halves(Get(input, 0), Get(input, 4)));
    z := RoundsFollow(f, sk, start);
    var swapped := Swap(Rounds(f, sk, start));
    GetBack(Final(swapped));
    InitialFinal(swapped);
    hide Get, Put, Initial, Final, Rounds;
  }
}
