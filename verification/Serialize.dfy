/**
 The byte format of lua-seri.c: one type byte, three bits of type and five bits of cookie, then the
 payload. `Encode` is what packing appends for a value; `Decode` is the unpacker.
 */
module Serialize {

  import opened Bytes
  import opened Division

  const TYPE_NIL: nat := 0
  const TYPE_BOOLEAN: nat := 1
  const TYPE_NUMBER: nat := 2
  const TYPE_USERDATA: nat := 3
  const TYPE_SHORT_STRING: nat := 4
  const TYPE_LONG_STRING: nat := 5
  const TYPE_TABLE: nat := 6
  const MAX_COOKIE: nat := 32
  const MAX_DEPTH: nat := 32

  const TWO31: int := 0x8000_0000
  const TWO32: int := 0x1_0000_0000
  const TWO63: int := 0x8000_0000_0000_0000
  const TWO64: int := 0x1_0000_0000_0000_0000

  /** A Lua value as the packer sees it. A number or a light userdata is its eight bytes; a table is the
      values at 1 .. lua_rawlen and the other pairs in the order of lua_next. */
  datatype Value =
    | Nil
    | Boolean(b: bool)
    | Integer(n: int)
    | Real(bits: seq<Byte>)
    | Pointer(bits: seq<Byte>)
    | Text(bytes: seq<Byte>)
    | Table(array_: seq<Value>, hash: seq<Pair>)

  datatype Pair = Pair(key: Value, value: Value)

  datatype Result<T> = Ok(value: T, rest: seq<Byte>) | Invalid

  /** Values that Lua can hold. */
  predicate Lua(v: Value) {
    match v
    case Integer(n) => -TWO63 <= n < TWO63
    case Real(bits) => |bits| == 8
    case Pointer(bits) => |bits| == 8
    case Table(a, h) => LuaAll(a) && LuaPairs(h)
    case _ => true
  }

  predicate LuaAll(vs: seq<Value>) {
    vs == [] || (Lua(vs[0]) && LuaAll(vs[1..]))
  }

  predicate LuaPairs(ps: seq<Pair>) {
    ps == [] || (LuaPair(ps[0]) && LuaPairs(ps[1..]))
  }

  predicate LuaPair(p: Pair) {
    Lua(p.key) && !p.key.Nil? && Lua(p.value)
  }

  /** Those whose strings and array parts a C `int` can count. */
  predicate Sound(v: Value) {
    match v
    case Integer(n) => -TWO63 <= n < TWO63
    case Real(bits) => |bits| == 8
    case Pointer(bits) => |bits| == 8
    case Text(bytes) => |bytes| < TWO31
    case Table(a, h) => |a| < TWO31 && SoundAll(a) && SoundPairs(h)
    case _ => true
  }

  predicate SoundAll(vs: seq<Value>) {
    vs == [] || (Sound(vs[0]) && SoundAll(vs[1..]))
  }

  predicate SoundPairs(ps: seq<Pair>) {
    ps == [] || (SoundPair(ps[0]) && SoundPairs(ps[1..]))
  }

  predicate SoundPair(p: Pair) {
    Sound(p.key) && !p.key.Nil? && Sound(p.value)
  }

  // ---- Packing ----

  function Combine(t: nat, cookie: nat): Byte
    requires t < 8 && cookie < 32
  {
    t + 8 * cookie
  }

  function EncodeInteger(v: int): seq<Byte> {
    if v == 0 then [Combine(TYPE_NUMBER, 0)]
    else if !(-TWO31 <= v < TWO31) then [Combine(TYPE_NUMBER, 6)] + Little(v % TWO64, 8)
    else if v < 0 then [Combine(TYPE_NUMBER, 4)] + Little(v % TWO32, 4)
    else if v < 0x100 then [Combine(TYPE_NUMBER, 1)] + Little(v, 1)
    else if v < 0x1_0000 then [Combine(TYPE_NUMBER, 2)] + Little(v, 2)
    else [Combine(TYPE_NUMBER, 4)] + Little(v, 4)
  }

  function EncodeText(s: seq<Byte>): seq<Byte> {
    if |s| < MAX_COOKIE then [Combine(TYPE_SHORT_STRING, |s|)] + s
    else if |s| < 0x1_0000 then [Combine(TYPE_LONG_STRING, 2)] + Little(|s|, 2) + s
    else [Combine(TYPE_LONG_STRING, 4)] + Little(|s|, 4) + s
  }

  function EncodeSize(n: nat): seq<Byte> {
    if n >= MAX_COOKIE - 1 then [Combine(TYPE_TABLE, MAX_COOKIE - 1)] + EncodeInteger(n)
    else [Combine(TYPE_TABLE, n)]
  }

  function Encode(v: Value): seq<Byte> {
    match v
    case Nil => [Combine(TYPE_NIL, 0)]
    case Boolean(b) => [Combine(TYPE_BOOLEAN, if b then 1 else 0)]
    case Integer(n) => EncodeInteger(n)
    case Real(bits) => [Combine(TYPE_NUMBER, 8)] + bits
    case Pointer(bits) => [Combine(TYPE_USERDATA, 0)] + bits
    case Text(s) => EncodeText(s)
    case Table(a, h) => EncodeSize(|a|) + EncodeAll(a) + EncodePairs(h)
  }

  function EncodeAll(vs: seq<Value>): seq<Byte> {
    if vs == [] then [] else Encode(vs[0]) + EncodeAll(vs[1..])
  }

  function EncodePairs(ps: seq<Pair>): seq<Byte> {
    if ps == [] then [Combine(TYPE_NIL, 0)] else EncodePair(ps[0]) + EncodePairs(ps[1..])
  }

  function EncodePair(p: Pair): seq<Byte> {
    Encode(p.key) + Encode(p.value)
  }

  // ---- Unpacking ----

  /** `rb_read`. */
  function Read(s: seq<Byte>, sz: nat): (r: Result<seq<Byte>>)
    ensures r.Ok? <==> |s| >= sz
    ensures r.Ok? ==> s == r.value + r.rest && |r.value| == sz
  {
    if |s| < sz then Invalid else Ok(s[..sz], s[sz..])
  }

  /** The signed number that `sz` bytes stand for. */
  function Signed(n: nat, half: int): int {
    if n < half then n else n - 2 * half
  }

  function DecodeInteger(s: seq<Byte>, cookie: nat): (r: Result<int>)
    ensures r.Ok? ==> |r.rest| <= |s|
  {
    match cookie
    case 0 => Ok(0, s)
    case 1 => var r := Read(s, 1); if r.Ok? then Ok(FromLittle(r.value), r.rest) else Invalid
    case 2 => var r := Read(s, 2); if r.Ok? then Ok(FromLittle(r.value), r.rest) else Invalid
    case 4 => var r := Read(s, 4); if r.Ok? then Ok(Signed(FromLittle(r.value), TWO31), r.rest) else Invalid
    case 6 => var r := Read(s, 8); if r.Ok? then Ok(Signed(FromLittle(r.value), TWO63), r.rest) else Invalid
    case _ => Invalid
  }

  function DecodeText(s: seq<Byte>, width: nat): (r: Result<Value>)
    ensures r.Ok? ==> |r.rest| <= |s|
  {
    var len := Read(s, width);
    if len.Invalid? || FromLittle(len.value) >= TWO31 then Invalid
    else
      var r := Read(len.rest, FromLittle(len.value));
      if r.Ok? then Ok(Text(r.value), r.rest) else Invalid
  }

  /** The number of array elements; 31 announces an integer, which is cut to a C `int`. */
  function DecodeSize(s: seq<Byte>, cookie: nat): (r: Result<int>)
    ensures r.Ok? ==> |r.rest| <= |s|
  {
    if cookie != MAX_COOKIE - 1 then Ok(cookie, s)
    else
      var t := Read(s, 1);
      if t.Invalid? || t.value[0] % 8 != TYPE_NUMBER || t.value[0] / 8 == 8 then Invalid
      else
        var n := DecodeInteger(t.rest, t.value[0] / 8);
        if n.Ok? then Ok(Signed(n.value % TWO32, TWO31), n.rest) else Invalid
  }

  function DecodeOne(s: seq<Byte>): (r: Result<Value>)
    ensures r.Ok? ==> |r.rest| < |s|
    decreases |s|, 1
  {
    var t := Read(s, 1);
    if t.Invalid? then Invalid else DecodeValue(s, t.rest, t.value[0] % 8, t.value[0] / 8)
  }

  /** `push_value`, on what follows the type byte of `whole`. */
  function DecodeValue(ghost whole: seq<Byte>, s: seq<Byte>, t: nat, cookie: nat): (r: Result<Value>)
    requires |s| < |whole|
    ensures r.Ok? ==> |r.rest| <= |s|
    decreases |whole|, 0
  {
    match t
    case 0 => Ok(Nil, s)
    case 1 => Ok(Boolean(cookie != 0), s)
    case 2 =>
      if cookie == 8 then var r := Read(s, 8); if r.Ok? then Ok(Real(r.value), r.rest) else Invalid
      else var r := DecodeInteger(s, cookie); if r.Ok? then Ok(Integer(r.value), r.rest) else Invalid
    case 3 => var r := Read(s, 8); if r.Ok? then Ok(Pointer(r.value), r.rest) else Invalid
    case 4 => var r := Read(s, cookie); if r.Ok? then Ok(Text(r.value), r.rest) else Invalid
    case 5 => if cookie == 2 || cookie == 4 then DecodeText(s, cookie) else Invalid
    case 6 =>
      var n := DecodeSize(s, cookie);
      if n.Invalid? then Invalid
      else
        var a := DecodeAll(n.rest, n.value);
        if a.Invalid? then Invalid
        else
          var h := DecodePairs(a.rest);
          if h.Ok? then Ok(Table(a.value, h.value), h.rest) else Invalid
    case _ => Invalid
  }

  function DecodeAll(s: seq<Byte>, n: int): (r: Result<seq<Value>>)
    ensures r.Ok? ==> |r.rest| <= |s|
    decreases |s|, 2
  {
    if n <= 0 then Ok([], s)
    else
      var v := DecodeOne(s);
      if v.Invalid? then Invalid
      else
        var vs := DecodeAll(v.rest, n - 1);
        if vs.Ok? then Ok([v.value] + vs.value, vs.rest) else Invalid
  }

  function DecodePairs(s: seq<Byte>): (r: Result<seq<Pair>>)
    ensures r.Ok? ==> |r.rest| <= |s|
    decreases |s|, 2
  {
    var k := DecodeOne(s);
    if k.Invalid? then Invalid
    else if k.value.Nil? then Ok([], k.rest)
    else
      var v := DecodeOne(k.rest);
      if v.Invalid? then Invalid
      else
        var ps := DecodePairs(v.rest);
        if ps.Ok? then Ok([Pair(k.value, v.value)] + ps.value, ps.rest) else Invalid
  }

  /** `luaseri_unpack`: values until the bytes run out. */
  function Unpack(s: seq<Byte>): Result<seq<Value>>
    decreases |s|
  {
    if s == [] then Ok([], [])
    else
      var v := DecodeOne(s);
      if v.Invalid? then Invalid
      else
        var vs := Unpack(v.rest);
        if vs.Ok? then Ok([v.value] + vs.value, vs.rest) else Invalid
  }

  // ---- Round trips ----

  lemma {:induction false} ReadPrefix(a: seq<Byte>, rest: seq<Byte>)
    ensures Read(a + rest, |a|) == Ok(a, rest)
  {
    assert (a + rest)[..|a|] == a && (a + rest)[|a|..] == rest;
  }

  /** Reading a type byte and then its payload. */
  lemma {:induction false} OneByte(b: Byte, payload: seq<Byte>, rest: seq<Byte>)
    ensures Read([b] + payload + rest, 1) == Ok([b], payload + rest)
  {
    assert [b] + payload + rest == [b] + (payload + rest);
    ReadPrefix([b], payload + rest);
  }

  /** The cookie an integer is written with. */
  function IntegerCookie(v: int): (c: nat)
    ensures c < 8
  {
    if v == 0 then 0
    else if !(-TWO31 <= v < TWO31) then 6
    else if v < 0 then 4
    else if v < 0x100 then 1
    else if v < 0x1_0000 then 2
    else 4
  }

  function IntegerPayload(v: int): seq<Byte> {
    if v == 0 then []
    else if !(-TWO31 <= v < TWO31) then Little(v % TWO64, 8)
    else if v < 0 then Little(v % TWO32, 4)
    else if v < 0x100 then Little(v, 1)
    else if v < 0x1_0000 then Little(v, 2)
    else Little(v, 4)
  }

  lemma {:induction false} IntegerParts(v: int)
    ensures EncodeInteger(v) == [Combine(TYPE_NUMBER, IntegerCookie(v))] + IntegerPayload(v)
  {
  }

  lemma {:induction false} Width(n: nat, k: nat, rest: seq<Byte>)
    requires n < Pow256(k)
    ensures Read(Little(n, k) + rest, k) == Ok(Little(n, k), rest) && FromLittle(Little(n, k)) == n
  {
    ReadPrefix(Little(n, k), rest);
    LittleRoundTrip(n, k);
  }

  /** Every width gives the integer back. */
  lemma {:induction false} IntegerRoundTrip(v: int, rest: seq<Byte>)
    requires -TWO63 <= v < TWO63
    ensures DecodeInteger(IntegerPayload(v) + rest, IntegerCookie(v)) == Ok(v, rest)
  {
    Widths();
    hide Pow256, FromLittle, Little, Read;
    if v == 0 {
      assert [] + rest == rest;
    } else if !(-TWO31 <= v < TWO31) {
      Width(v % TWO64, 8, rest);
    } else if v < 0 {
      Width(v % TWO32, 4, rest);
    } else if v < 0x100 {
      Width(v, 1, rest);
    } else if v < 0x1_0000 {
      Width(v, 2, rest);
    } else {
      Width(v, 4, rest);
    }
  }

  lemma {:induction false} LongText(s: seq<Byte>, width: nat, rest: seq<Byte>)
    requires |s| < TWO31 && |s| < Pow256(width)
    ensures DecodeText(Little(|s|, width) + s + rest, width) == Ok(Text(s), rest)
  {
    assert Little(|s|, width) + s + rest == Little(|s|, width) + (s + rest);
    Width(|s|, width, s + rest);
    ReadPrefix(s, rest);
  }

  lemma {:induction false} ShortText(s: seq<Byte>, rest: seq<Byte>)
    requires |s| < MAX_COOKIE
    ensures DecodeOne([Combine(TYPE_SHORT_STRING, |s|)] + s + rest) == Ok(Text(s), rest)
  {
    hide Pow256, Little, DecodeText;
    OneByte(Combine(TYPE_SHORT_STRING, |s|), s, rest);
    ReadPrefix(s, rest);
  }

  lemma {:induction false} SizedText(s: seq<Byte>, w: nat, rest: seq<Byte>)
    requires |s| < TWO31 && |s| < Pow256(w) && (w == 2 || w == 4)
    ensures DecodeOne([Combine(TYPE_LONG_STRING, w)] + Little(|s|, w) + s + rest) == Ok(Text(s), rest)
  {
    hide Pow256, Little, DecodeText;
    LongText(s, w, rest);
    OneByte(Combine(TYPE_LONG_STRING, w), Little(|s|, w) + s, rest);
    assert [Combine(TYPE_LONG_STRING, w)] + Little(|s|, w) + s + rest
        == [Combine(TYPE_LONG_STRING, w)] + (Little(|s|, w) + s) + rest;
  }

  lemma {:induction false} TextRoundTrip(s: seq<Byte>, rest: seq<Byte>)
    requires |s| < TWO31
    ensures DecodeOne(EncodeText(s) + rest) == Ok(Text(s), rest)
  {
    hide DecodeOne, Pow256, Little;
    Widths();
    if |s| < MAX_COOKIE {
      ShortText(s, rest);
    } else {
      SizedText(s, if |s| < 0x1_0000 then 2 else 4, rest);
    }
  }

  /** The cookie in a table's type byte. */
  function SizeCookie(n: nat): (c: nat)
    ensures c < 32
  {
    if n >= MAX_COOKIE - 1 then MAX_COOKIE - 1 else n
  }

  lemma {:induction false} SizeRoundTrip(n: nat, rest: seq<Byte>) returns (tail: seq<Byte>)
    requires n < TWO31
    ensures EncodeSize(n) + rest == [Combine(TYPE_TABLE, SizeCookie(n))] + tail
    ensures DecodeSize(tail, SizeCookie(n)) == Ok(n, rest)
  {
    if n >= MAX_COOKIE - 1 {
      tail := EncodeInteger(n) + rest;
      assert EncodeSize(n) + rest == [Combine(TYPE_TABLE, 31)] + tail;
      IntegerParts(n);
      OneByte(Combine(TYPE_NUMBER, IntegerCookie(n)), IntegerPayload(n), rest);
      IntegerRoundTrip(n, rest);
    } else {
      tail := rest;
    }
  }

  lemma {:induction false} NilRoundTrip(rest: seq<Byte>)
    ensures DecodeOne([Combine(TYPE_NIL, 0)] + rest) == Ok(Nil, rest)
  {
    ReadPrefix([Combine(TYPE_NIL, 0)], rest);
  }

  lemma {:induction false} ScalarRoundTrip(v: Value, rest: seq<Byte>)
    requires Sound(v) && !v.Table?
    ensures DecodeOne(Encode(v) + rest) == Ok(v, rest)
  {
    match v
    case Nil => NilRoundTrip(rest);
    case Boolean(b) => ReadPrefix([Combine(TYPE_BOOLEAN, if b then 1 else 0)], rest);
    case Integer(n) =>
      IntegerParts(n);
      OneByte(Combine(TYPE_NUMBER, IntegerCookie(n)), IntegerPayload(n), rest);
      IntegerRoundTrip(n, rest);
    case Real(bits) => OneByte(Combine(TYPE_NUMBER, 8), bits, rest); ReadPrefix(bits, rest);
    case Pointer(bits) => OneByte(Combine(TYPE_USERDATA, 0), bits, rest); ReadPrefix(bits, rest);
    case Text(s) => TextRoundTrip(s, rest);
  }

  lemma {:induction false} TableDecodes(cookie: nat, tail: seq<Byte>)
    requires cookie < 32 && DecodeSize(tail, cookie).Ok?
    ensures var n := DecodeSize(tail, cookie);
            var a := DecodeAll(n.rest, n.value);
            a.Ok? && DecodePairs(a.rest).Ok? ==>
              DecodeOne([Combine(TYPE_TABLE, cookie)] + tail) == Ok(Table(a.value, DecodePairs(a.rest).value), DecodePairs(a.rest).rest)
  {
    ReadPrefix([Combine(TYPE_TABLE, cookie)], tail);
    hide DecodeSize, Read;
  }

  lemma {:induction false} Regroup(a: seq<Byte>, b: seq<Byte>, c: seq<Byte>, rest: seq<Byte>)
    ensures (a + b + c) + rest == a + (b + (c + rest))
  {
  }

  /** Unpacking what was packed for a value gives the value back and leaves the rest. */
  lemma {:induction false} RoundTrip(v: Value, rest: seq<Byte>)
    requires Sound(v)
    ensures DecodeOne(Encode(v) + rest) == Ok(v, rest)
    decreases v
  {
    if !v.Table? {
      ScalarRoundTrip(v, rest);
      return;
    }
    hide DecodeOne, DecodeSize, DecodePairs, DecodeAll, EncodeSize, EncodeAll, EncodePairs;
    var a, h := v.array_, v.hash;
    var afterArray := EncodePairs(h) + rest;
    var afterSize := EncodeAll(a) + afterArray;
    var tail := SizeRoundTrip(|a|, afterSize);
    Regroup(EncodeSize(|a|), EncodeAll(a), EncodePairs(h), rest);
    assert Encode(v) == EncodeSize(|a|) + EncodeAll(a) + EncodePairs(h);
    assert Sound(v) ==> SoundAll(a) && SoundPairs(h);
    hide Encode, Sound, SoundAll, SoundPairs, Combine;
    TableDecodes(SizeCookie(|a|), tail);
    RoundTripAll(a, afterArray);
    RoundTripPairs(h, rest);
  }

  lemma {:induction false} RoundTripAll(vs: seq<Value>, rest: seq<Byte>)
    requires SoundAll(vs)
    ensures DecodeAll(EncodeAll(vs) + rest, |vs|) == Ok(vs, rest)
    decreases vs
  {
    if vs == [] {
      assert EncodeAll(vs) + rest == rest;
    } else {
      var tail := EncodeAll(vs[1..]) + rest;
      assert EncodeAll(vs) + rest == Encode(vs[0]) + tail;
      RoundTrip(vs[0], tail);
      RoundTripAll(vs[1..], rest);
      assert vs == [vs[0]] + vs[1..];
    }
  }

  lemma {:induction false} RoundTripPairs(ps: seq<Pair>, rest: seq<Byte>)
    requires SoundPairs(ps)
    ensures DecodePairs(EncodePairs(ps) + rest) == Ok(ps, rest)
    decreases ps
  {
    hide Encode, DecodeOne;
    if ps == [] {
      NilRoundTrip(rest);
    } else {
      var tail := EncodePairs(ps[1..]) + rest;
      assert EncodePairs(ps) + rest == Encode(ps[0].key) + (Encode(ps[0].value) + tail);
      RoundTripPair(ps[0], tail);
      RoundTripPairs(ps[1..], rest);
      assert ps == [ps[0]] + ps[1..];
    }
  }

  lemma {:induction false} RoundTripPair(p: Pair, rest: seq<Byte>)
    requires SoundPair(p)
    ensures DecodeOne(Encode(p.key) + (Encode(p.value) + rest)) == Ok(p.key, Encode(p.value) + rest)
    ensures DecodeOne(Encode(p.value) + rest) == Ok(p.value, rest)
    decreases p
  {
    RoundTrip(p.key, Encode(p.value) + rest);
    RoundTrip(p.value, rest);
  }

  lemma {:induction false} UnpackRoundTrip(vs: seq<Value>)
    requires SoundAll(vs)
    ensures Unpack(EncodeAll(vs)) == Ok(vs, [])
  {
    if vs != [] {
      RoundTrip(vs[0], EncodeAll(vs[1..]));
      UnpackRoundTrip(vs[1..]);
      assert vs == [vs[0]] + vs[1..];
    }
  }

  // ---- What fits ----

  /** Whatever packs into fewer than 2^31 bytes has no part that is too long. */
  lemma {:induction false} ShortIsSound(v: Value)
    requires Lua(v) && |Encode(v)| < TWO31
    ensures Sound(v) && |Encode(v)| >= 1
    decreases v
  {
    hide EncodeInteger, EncodeText;
    match v
    case Integer(n) => IntegerParts(n);
    case Text(s) => TextLength(s);
    case Table(a, h) =>
      SizeLength(|a|);
      hide EncodeSize, EncodeAll, EncodePairs;
      ShortAllSound(a);
      ShortPairsSound(h);
    case _ =>
  }

  lemma {:induction false} TextLength(s: seq<Byte>)
    ensures |EncodeText(s)| > |s|
  {
  }

  lemma {:induction false} SizeLength(n: nat)
    ensures |EncodeSize(n)| >= 1
  {
    hide EncodeInteger;
  }

  lemma {:induction false} ShortAllSound(vs: seq<Value>)
    requires LuaAll(vs) && |EncodeAll(vs)| < TWO31
    ensures SoundAll(vs) && |EncodeAll(vs)| >= |vs|
    decreases vs
  {
    hide Encode, Lua, Sound;
    if vs != [] {
      ShortIsSound(vs[0]);
      ShortAllSound(vs[1..]);
    }
  }

  lemma {:induction false} ShortPairsSound(ps: seq<Pair>)
    requires LuaPairs(ps) && |EncodePairs(ps)| < TWO31
    ensures SoundPairs(ps)
    decreases ps
  {
    hide Encode, Lua, Sound;
    if ps != [] {
      ShortPairSound(ps[0]);
      ShortPairsSound(ps[1..]);
    }
  }

  lemma {:induction false} ShortPairSound(p: Pair)
    requires LuaPair(p) && |EncodePair(p)| < TWO31
    ensures SoundPair(p)
    decreases p
  {
    hide Encode, Lua, Sound;
    ShortIsSound(p.key);
    ShortIsSound(p.value);
  }

  // ---- The bytes of the format ----

  /** An integer of at most four bytes: type in the low three bits, width above, then the number with
      its least significant byte first. */
  lemma {:induction false} IntegerLayout(v: int)
    requires -TWO31 <= v < TWO31
    ensures v == 0 ==> EncodeInteger(v) == [2]
    ensures 0 < v < 0x100 ==> EncodeInteger(v) == [10] + [v % 256]
    ensures 0x100 <= v < 0x1_0000 ==> EncodeInteger(v) == [18] + [v % 256, v / 0x100 % 256]
    ensures 0x1_0000 <= v || v < 0 ==>
              var u := v % TWO32;
              EncodeInteger(v) == [34] + [u % 256, u / 0x100 % 256, u / 0x1_0000 % 256, u / 0x100_0000 % 256]
  {
    hide Little;
    if v >= 0 { ModSmall(v, TWO32); }
    LittleShort(v % TWO32);
  }

  /** Any other integer takes eight bytes. */
  lemma {:induction false} LongLayout(v: int, j: nat)
    requires !(-TWO31 <= v < TWO31) && j < 8
    ensures |EncodeInteger(v)| == 9 && EncodeInteger(v)[0] == 50
    ensures EncodeInteger(v)[1 + j] == v % TWO64 / Pow256(j) % 256
  {
    hide Little;
    LittleLayout(v % TWO64, 8, j);
  }

  /** Up to 31 bytes the length is the cookie; then it takes two or four bytes. */
  lemma {:induction false} TextLayout(s: seq<Byte>)
    ensures |s| < 32 ==> EncodeText(s) == [4 + 8 * |s|] + s
    ensures 32 <= |s| < 0x1_0000 ==> EncodeText(s) == [21] + [|s| % 256, |s| / 0x100 % 256] + s
    ensures |s| >= 0x1_0000 ==>
              EncodeText(s) == [37] + [|s| % 256, |s| / 0x100 % 256, |s| / 0x1_0000 % 256, |s| / 0x100_0000 % 256] + s
  {
    hide Little;
    LittleShort(|s|);
  }

  /** The size of an array part: up to 30 the cookie, then an integer behind it. */
  lemma {:induction false} SizeLayout(n: nat)
    ensures n < 31 ==> EncodeSize(n) == [6 + 8 * n]
    ensures n >= 31 ==> EncodeSize(n) == [254] + EncodeInteger(n)
  {
    hide EncodeInteger;
  }

  /** A type byte and the bytes behind it. */
  predicate Starts(s: seq<Byte>, first: Byte, tail: seq<Byte>) {
    |s| > 0 && s[0] == first && s[1..] == tail
  }

  /** The values of fixed size. */
  lemma {:induction false} ScalarLayout(bits: seq<Byte>)
    ensures Starts(Encode(Nil), 0, [])
    ensures Starts(Encode(Boolean(false)), 1, []) && Starts(Encode(Boolean(true)), 9, [])
    ensures Starts(Encode(Real(bits)), 66, bits) && Starts(Encode(Pointer(bits)), 3, bits)
  {
    hide EncodeInteger, EncodeAll, EncodePairs, EncodeText, EncodeSize;
  }

  /** A table is its size, its array part and its pairs. */
  lemma {:induction false} TableLayout(n: int, s: seq<Byte>, a: seq<Value>, h: seq<Pair>)
    ensures Encode(Integer(n)) == EncodeInteger(n) && Encode(Text(s)) == EncodeText(s)
    ensures Encode(Table(a, h)) == EncodeSize(|a|) + EncodeAll(a) + EncodePairs(h)
  {
    hide EncodeInteger, EncodeAll, EncodePairs, EncodeText, EncodeSize, Combine;
  }

  /** Values follow one another in order, and so do keys and values of pairs. */
  lemma {:induction false} SequenceLayout(vs: seq<Value>, v: Value, ps: seq<Pair>, p: Pair)
    ensures EncodeAll([]) == [] && EncodeAll([v] + vs) == Encode(v) + EncodeAll(vs)
    ensures EncodePairs([]) == [0] && EncodePairs([p] + ps) == Encode(p.key) + Encode(p.value) + EncodePairs(ps)
  {
    hide Encode;
    assert ([v] + vs)[1..] == vs && ([p] + ps)[1..] == ps;
  }
}
