/**
 Texts of any length under DES (lua-crypt.c): padded to a multiple of eight bytes, block by block,
 and back. The key schedule is any function from eight bytes to 32 words.
 */
module DesText {

  import opened Des

  const ISO7816_4: int := 0
  const PKCS7: int := 1

  type Schedule = seq<Byte8> -> seq<Word>

  const TWO31: int := 0x8000_0000

  /** `Broken` is a call that leaves the range of its C variables or of its buffer: the text is too long
      for the `int` that counts it, or the padding is looked for before the front of the buffer. What C
      does then is not defined. */
  datatype Result = Ok(text: seq<Byte8>) | Err(message: string) | Broken

  predicate ValidMode(mode: int) {
    mode == ISO7816_4 || mode == PKCS7
  }

  // ---- Blocks ----

  function CryptAll(f: Round, sk: seq<Word>, t: seq<Byte8>): (r: seq<Byte8>)
    requires |t| % 8 == 0
    ensures |r| == |t|
  {
    if t == [] then [] else Crypt(f, sk, t[..8]) + CryptAll(f, sk, t[8..])
  }

  lemma {:induction false} CryptAllBack(f: Round, sk: seq<Word>, t: seq<Byte8>)
    requires |t| % 8 == 0 && |sk| % 4 == 0
    ensures CryptAll(f, Reversed(sk), CryptAll(f, sk, t)) == t
  {
    hide Crypt, Reversed;
    if t != [] {
      CryptBack(f, sk, t[..8]);
      CryptAllBack(f, sk, t[8..]);
      var c := CryptAll(f, sk, t);
      assert c[..8] == Crypt(f, sk, t[..8]) && c[8..] == CryptAll(f, sk, t[8..]);
    }
  }

  lemma {:induction false} CryptAllNext(f: Round, sk: seq<Word>, a: seq<Byte8>, b: seq<Byte8>)
    requires |a| % 8 == 0 && |b| == 8
    ensures CryptAll(f, sk, a + b) == CryptAll(f, sk, a) + Crypt(f, sk, b)
  {
    hide Crypt;
    if a == [] {
      assert a + b == b && b[..8] == b && b[8..] == [];
    } else {
      assert (a + b)[..8] == a[..8] && (a + b)[8..] == a[8..] + b;
      CryptAllNext(f, sk, a[8..], b);
    }
  }

  /** One turn of the loops over a text. */
  lemma {:induction false} CryptStep(f: Round, sk: seq<Word>, t: seq<Byte8>, i: nat)
    requires i % 8 == 0 && i + 8 <= |t|
    ensures CryptAll(f, sk, t[..i + 8]) == CryptAll(f, sk, t[..i]) + Crypt(f, sk, t[i..i + 8])
  {
    hide Crypt, CryptAll;
    assert t[..i + 8] == t[..i] + t[i..i + 8];
    CryptAllNext(f, sk, t[..i], t[i..i + 8]);
  }

  lemma {:induction false} CryptNone(f: Round, sk: seq<Word>, t: seq<Byte8>)
    ensures CryptAll(f, sk, t[..0]) == []
  {
  }

  /** Every block is encrypted for itself, in its place. */
  lemma {:induction false} BlockAt(f: Round, sk: seq<Word>, t: seq<Byte8>, i: nat)
    requires |t| % 8 == 0 && i % 8 == 0 && i < |t|
    ensures CryptAll(f, sk, t)[i..i + 8] == Crypt(f, sk, t[i..i + 8])
    decreases |t|
  {
    hide Crypt;
    var first, rest := Crypt(f, sk, t[..8]), CryptAll(f, sk, t[8..]);
    if i == 0 {
      assert (first + rest)[0..8] == first && t[0..8] == t[..8];
    } else {
      BlockAt(f, sk, t[8..], i - 8);
      assert (first + rest)[i..i + 8] == rest[i - 8..i] && t[8..][i - 8..i] == t[i..i + 8];
    }
  }

  // ---- Padding ----

  /** The last block of a text. */
  function Pad(tail: seq<Byte8>, mode: int): (r: seq<Byte8>)
    requires |tail| < 8
    ensures |r| == 8
  {
    if mode == ISO7816_4 then tail + [0x80] + seq(7 - |tail|, _ => 0)
    else tail + seq(8 - |tail|, _ => (8 - |tail|) as Byte8)
  }

  /** The last `p` bytes are padding. */
  ghost predicate HasPadding(s: seq<Byte8>, mode: int, p: int) {
    && 1 <= p <= 8 <= |s|
    && if mode == ISO7816_4
       then s[|s| - p] == 0x80 && forall i :: |s| - p < i < |s| ==> s[i] == 0
       else forall i :: |s| - p <= i < |s| ==> s[i] == p as Byte8
  }

  /** At most one length can be read off the end. */
  lemma {:induction false} PaddingUnique(s: seq<Byte8>, mode: int, p: int, q: int)
    requires HasPadding(s, mode, p) && HasPadding(s, mode, q)
    ensures p == q
  {
    if mode != ISO7816_4 {
      assert s[|s| - 1] == p as Byte8 && s[|s| - 1] == q as Byte8;
      assert (p as Byte8) as int == p && (q as Byte8) as int == q;
    }
  }

  lemma {:induction false} PadHasPadding(a: seq<Byte8>, tail: seq<Byte8>, mode: int)
    requires |tail| < 8
    ensures HasPadding(a + Pad(tail, mode), mode, 8 - |tail|)
  {
    var s := a + Pad(tail, mode);
    assert forall i :: 0 <= i < 8 ==> s[|a| + i] == Pad(tail, mode)[i];
    assert forall i :: |a| <= i < |s| ==> s[i] == Pad(tail, mode)[i - |a|];
  }

  /** `padding_remove_iso7816_4`: counts zeros back to the mark. */
  method RemoveIso(s: seq<Byte8>) returns (padding: int)
    requires |s| >= 8
    ensures 0 <= padding <= 8
    ensures padding > 0 ==> HasPadding(s, ISO7816_4, padding)
    ensures padding == 0 ==> forall p :: !HasPadding(s, ISO7816_4, p)
  {
    padding := 1;
    var last := |s| - 1;
    for i := 0 to 8
      invariant padding == i + 1 && last == |s| - 1 - i
      invariant forall k :: last < k < |s| ==> s[k] == 0
    {
      if s[last] == 0 {
        padding := padding + 1;
      } else if s[last] == 0x80 {
        return;
      } else {
        forall p ensures !HasPadding(s, ISO7816_4, p) {
        }
        return 0;
      }
      last := last - 1;
    }
    return 0;
  }

  /** Every byte is the length byte, and that is more than there are bytes. */
  ghost predicate RunsOut(s: seq<Byte8>) {
    s != [] && s[|s| - 1] as int > |s| && forall k :: 0 <= k < |s| ==> s[k] == s[|s| - 1]
  }

  lemma {:induction false} LengthByte(s: seq<Byte8>, p: int)
    requires HasPadding(s, PKCS7, p)
    ensures s[|s| - 1] as int == p && forall k :: |s| - p <= k < |s| ==> s[k] == s[|s| - 1]
  {
    assert s[|s| - 1] == p as Byte8 && (p as Byte8) as int == p;
  }

  lemma {:induction false} ByteLength(s: seq<Byte8>)
    requires |s| >= 8 && 1 <= s[|s| - 1] as int <= 8
    requires forall k :: |s| - s[|s| - 1] as int <= k < |s| ==> s[k] == s[|s| - 1]
    ensures HasPadding(s, PKCS7, s[|s| - 1] as int)
  {
    var b := s[|s| - 1];
    assert (b as int) as Byte8 == b;
  }

  /** `padding_remove_pkcs7`: looks back from the length byte as far as it says. It stays inside the buffer
      unless all of it is that byte, which its caller then refuses for being above eight. */
  method RemovePkcs7(s: seq<Byte8>) returns (padding: int, inside: bool)
    requires |s| >= 8
    ensures inside <==> !RunsOut(s)
    ensures 0 < padding <= 8 ==> inside && HasPadding(s, PKCS7, padding)
    ensures !(0 < padding <= 8) ==> forall p :: !HasPadding(s, PKCS7, p)
  {
    var b := s[|s| - 1];
    padding := b as int;
    forall p | HasPadding(s, PKCS7, p) ensures p == padding && forall k :: |s| - p <= k < |s| ==> s[k] == b {
      LengthByte(s, p);
    }
    hide HasPadding;
    var last := |s| - 1;
    var i := 1;
    while i < padding
      invariant 1 <= i && (padding > 0 ==> i <= padding) && last == |s| - i && 0 <= last
      invariant forall k :: last <= k < |s| ==> s[k] == b
    {
      if last == 0 {
        return padding, false;
      }
      last := last - 1;
      if s[last] != b {
        return 0, true;
      }
      i := i + 1;
    }
    if 0 < padding <= 8 { ByteLength(s); }
    return padding, true;
  }

  method RemovePadding(s: seq<Byte8>, mode: int) returns (padding: int, inside: bool)
    requires |s| >= 8 && ValidMode(mode)
    ensures inside <==> !(mode == PKCS7 && RunsOut(s))
    ensures 0 < padding <= 8 ==> inside && HasPadding(s, mode, padding)
    ensures !(0 < padding <= 8) ==> forall p :: !HasPadding(s, mode, p)
  {
    if mode == ISO7816_4 {
      padding := RemoveIso(s);
      inside := true;
    } else {
      padding, inside := RemovePkcs7(s);
    }
  }

  // ---- Texts ----

  /** The text with its padding: whole blocks and the padded rest. */
  function Padded(t: seq<Byte8>, mode: int): (r: seq<Byte8>)
    ensures |r| % 8 == 0 && |t| < |r| <= |t| + 8
  {
    var whole := |t| - |t| % 8;
    t[..whole] + Pad(t[whole..], mode)
  }

  lemma {:induction false} PaddedBack(t: seq<Byte8>, mode: int)
    ensures HasPadding(Padded(t, mode), mode, |Padded(t, mode)| - |t|)
    ensures Padded(t, mode)[..|t|] == t
  {
    var whole := |t| - |t| % 8;
    var a, tail := t[..whole], t[whole..];
    PadHasPadding(a, tail, mode);
    assert Pad(tail, mode)[..|tail|] == tail;
    hide Pad, HasPadding;
    assert (a + Pad(tail, mode))[..|t|] == a + Pad(tail, mode)[..|tail|];
  }

  lemma {:induction false} CryptEnd(f: Round, sk: seq<Word>, t: seq<Byte8>, i: nat, mode: int)
    requires i == |t| - |t| % 8
    ensures CryptAll(f, sk, Padded(t, mode)) == CryptAll(f, sk, t[..i]) + Crypt(f, sk, Pad(t[i..], mode))
  {
    hide Crypt, CryptAll, Pad;
    CryptAllNext(f, sk, t[..i], Pad(t[i..], mode));
  }

  lemma {:induction false} LastBlock(n: nat, i: nat)
    requires i % 8 == 0 && i <= n < i + 8
    ensures i == n - n % 8
  {
  }

  /** The loop of both calls: every whole block. */
  method CryptBlocks(f: Round, sk: seq<Word>, text: seq<Byte8>) returns (buffer: seq<Byte8>, i: nat)
    ensures i == |text| - |text| % 8 && buffer == CryptAll(f, sk, text[..i])
  {
    hide Crypt, CryptAll;
    buffer, i := [], 0;
    CryptNone(f, sk, text);
    while i + 7 < |text|
      invariant i <= |text| && i % 8 == 0 && buffer == CryptAll(f, sk, text[..i])
    {
      CryptStep(f, sk, text, i);
      buffer := buffer + Crypt(f, sk, text[i..i + 8]);
      i := i + 8;
    }
    LastBlock(|text|, i);
  }

  /** `ldesencode`: right for texts that a C `int` can count. */
  method Encode(f: Round, ks: Schedule, key: seq<Byte8>, text: seq<Byte8>, mode: int) returns (r: Result)
    ensures r.Broken? <==> |key| == 8 && |text| >= TWO31
    ensures r.Ok? <==> |key| == 8 && |text| < TWO31 && ValidMode(mode)
    ensures r.Ok? ==> r.text == CryptAll(f, ks(key), Padded(text, mode))
  {
    if |key| != 8 {
      return Err("Invalid key size");
    }
    if |text| >= TWO31 {
      return Broken;
    }
    var sk := ks(key);
    hide Crypt, CryptAll, Pad, Padded;
    var buffer, i := CryptBlocks(f, sk, text);
    if !ValidMode(mode) {
      return Err("Invalid padding mode");
    }
    var tail := Pad(text[i..], mode);
    CryptEnd(f, sk, text, i, mode);
    var block := Crypt(f, sk, tail);
    return Ok(buffer + block);
  }

  /** The loop that turns the subkeys round. */
  method ReverseKeys(esk: seq<Word>) returns (sk: seq<Word>)
    requires |esk| == 32
    ensures sk == Reversed(esk)
  {
    var a := new Word[32](_ => 0);
    var i := 0;
    ReversedLength(esk);
    while i < 32
      invariant 0 <= i <= 32 && i % 2 == 0
      invariant a[..i] == Reversed(esk)[..i]
    {
      ReversedAt(esk, i);
      a[i] := esk[30 - i];
      a[i + 1] := esk[31 - i];
      i := i + 2;
    }
    return a[..];
  }

  lemma {:induction false} ReversedAt(sk: seq<Word>, i: nat)
    requires |sk| % 2 == 0 && i % 2 == 0 && i < |sk|
    ensures |Reversed(sk)| == |sk| && Reversed(sk)[i] == sk[|sk| - 2 - i] && Reversed(sk)[i + 1] == sk[|sk| - 1 - i]
  {
    ReversedLength(sk);
    ReversedLength(sk[2..]);
    if i < |sk| - 2 { ReversedAt(sk[2..], i); }
  }

  /** What decoding breaks on: a text whose blocks an `int` cannot count, or one that decrypts to nothing
      but one large length byte. */
  ghost predicate Breaks(f: Round, sk: seq<Word>, text: seq<Byte8>, mode: int)
    requires |text| % 8 == 0
  {
    |text| >= TWO31 || (mode == PKCS7 && RunsOut(CryptAll(f, Reversed(sk), text)))
  }

  /** `ldesdecode`. */
  method Decode(f: Round, ks: Schedule, key: seq<Byte8>, text: seq<Byte8>, mode: int) returns (r: Result)
    requires |ks(key)| == 32
    ensures r.Broken? <==> |key| == 8 && |text| % 8 == 0 && text != [] && Breaks(f, ks(key), text, mode)
    ensures r.Ok? <==> |key| == 8 && |text| % 8 == 0 && text != [] && |text| < TWO31 && ValidMode(mode)
                       && exists p :: HasPadding(CryptAll(f, Reversed(ks(key)), text), mode, p)
    ensures r.Ok? ==> exists p :: HasPadding(CryptAll(f, Reversed(ks(key)), text), mode, p)
                                  && r.text == CryptAll(f, Reversed(ks(key)), text)[..|text| - p]
  {
    if |key| != 8 {
      return Err("Invalid key size");
    }
    var sk := ReverseKeys(ks(key));
    if |text| % 8 != 0 || |text| == 0 {
      return Err("Invalid des crypt text length");
    }
    if |text| >= TWO31 {
      return Broken;
    }
    hide Crypt, CryptAll, Reversed, HasPadding, RunsOut;
    var buffer, i := CryptBlocks(f, sk, text);
    assert text[..|text|] == text;
    if !ValidMode(mode) {
      return Err("Invalid padding mode");
    }
    var padding, inside := RemovePadding(buffer, mode);
    if !inside {
      return Broken;
    }
    if padding <= 0 || padding > 8 {
      return Err("Invalid des crypt text");
    }
    return Ok(buffer[..|text| - padding]);
  }

  /** A padded text never runs out of the buffer. */
  lemma {:induction false} PaddedInside(s: seq<Byte8>, p: int)
    requires HasPadding(s, PKCS7, p)
    ensures !RunsOut(s)
  {
    LengthByte(s, p);
  }

  /** Decoding undoes encoding, for every key, text and padding mode, if and only if the padded text can
      be counted by a C `int`. */
  method RoundTrip(f: Round, ks: Schedule, key: seq<Byte8>, text: seq<Byte8>, mode: int) returns (r: Result)
    requires |key| == 8 && |ks(key)| == 32 && ValidMode(mode)
    ensures r == (if |text| < TWO31 - 8 then Ok(text) else Broken)
  {
    hide Crypt, CryptAll, Reversed, Padded, RunsOut;
    PaddedLength(text, mode);
    r := Encode(f, ks, key, text, mode);
    if r.Ok? {
      ghost var plain := Padded(text, mode);
      CryptAllBack(f, ks(key), plain);
      PaddedBack(text, mode);
      if mode == PKCS7 { PaddedInside(plain, |plain| - |text|); }
      r := Decode(f, ks, key, r.text, mode);
      if r.Ok? {
        ghost var p :| HasPadding(plain, mode, p) && r.text == plain[..|plain| - p];
        PaddingUnique(plain, mode, p, |plain| - |text|);
      }
    }
  }

  lemma {:induction false} PaddedLength(t: seq<Byte8>, mode: int)
    ensures |Padded(t, mode)| == |t| - |t| % 8 + 8
    ensures |Padded(t, mode)| < TWO31 <==> |t| < TWO31 - 8
  {
  }
}
