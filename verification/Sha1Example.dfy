/**
 The published example of FIPS 180-4: the digest of the three letters "abc", step by step.
 */
module Sha1Example {

  import opened Sha1Block
  import opened Sha1Stream

  const Abc: seq<Octet> := [0x61, 0x62, 0x63]

  /** The message after padding, word by word. */
  ghost predicate OneBlock(b: seq<Octet>) {
    && |b| == 64
    && BigEndian(b, 0) == 0x61626380
    && (forall t :: 1 <= t < 15 ==> BigEndian(b, 4 * t) == 0)
    && BigEndian(b, 60) == 0x00000018
  }

  ghost predicate Words0(b: seq<Octet>)
    requires |b| == 64
  {
    && W(b, 0) == 0x61626380 && W(b, 1) == 0x00000000 && W(b, 2) == 0x00000000 && W(b, 3) == 0x00000000
    && W(b, 4) == 0x00000000 && W(b, 5) == 0x00000000 && W(b, 6) == 0x00000000 && W(b, 7) == 0x00000000
    && W(b, 8) == 0x00000000 && W(b, 9) == 0x00000000 && W(b, 10) == 0x00000000 && W(b, 11) == 0x00000000
    && W(b, 12) == 0x00000000 && W(b, 13) == 0x00000000 && W(b, 14) == 0x00000000 && W(b, 15) == 0x00000018
  }

  ghost predicate Words16(b: seq<Octet>)
    requires |b| == 64
  {
    && W(b, 16) == 0xC2C4C700 && W(b, 17) == 0x00000000 && W(b, 18) == 0x00000030 && W(b, 19) == 0x85898E01
    && W(b, 20) == 0x00000000 && W(b, 21) == 0x00000060 && W(b, 22) == 0x0B131C03 && W(b, 23) == 0x00000030
    && W(b, 24) == 0x85898EC1 && W(b, 25) == 0x16263806 && W(b, 26) == 0x00000000 && W(b, 27) == 0x00000180
    && W(b, 28) == 0x2C4C700C && W(b, 29) == 0x000000F0 && W(b, 30) == 0x93AFB507 && W(b, 31) == 0x5898E048
  }

  ghost predicate Words32(b: seq<Octet>)
    requires |b| == 64
  {
    && W(b, 32) == 0x8E9A9202 && W(b, 33) == 0x00000600 && W(b, 34) == 0xB131C0F0 && W(b, 35) == 0x16263BC6
    && W(b, 36) == 0x4EBED41E && W(b, 37) == 0x626380A1 && W(b, 38) == 0x16263806 && W(b, 39) == 0x000018C0
    && W(b, 40) == 0xD2E138C4 && W(b, 41) == 0x00000F00 && W(b, 42) == 0x3AFB5079 && W(b, 43) == 0x898E04E5
    && W(b, 44) == 0xE2BA3C2B && W(b, 45) == 0x000060C0 && W(b, 46) == 0x053A37CD && W(b, 47) == 0x74458547
  }

  ghost predicate Words48(b: seq<Octet>)
    requires |b| == 64
  {
    && W(b, 48) == 0xDA9415ED && W(b, 49) == 0x26380A16 && W(b, 50) == 0x626383A1 && W(b, 51) == 0x4EBF54DE
    && W(b, 52) == 0x3835B44B && W(b, 53) == 0x0000F600 && W(b, 54) == 0x1E84C7A3 && W(b, 55) == 0x98E04D98
    && W(b, 56) == 0x651D16A0 && W(b, 57) == 0x62658CA1 && W(b, 58) == 0x458544D6 && W(b, 59) == 0x44584CB7
    && W(b, 60) == 0x7BA06619 && W(b, 61) == 0x6380AEA2 && W(b, 62) == 0x0AE55269 && W(b, 63) == 0x627B49A1
  }

  ghost predicate Words64(b: seq<Octet>)
    requires |b| == 64
  {
    && W(b, 64) == 0x7CD45C9D && W(b, 65) == 0x000F0000 && W(b, 66) == 0xFB50753A && W(b, 67) == 0xEC6765E8
    && W(b, 68) == 0xBA3C2BE2 && W(b, 69) == 0x0060C000 && W(b, 70) == 0x3A37CD05 && W(b, 71) == 0x458546F4
    && W(b, 72) == 0xB8599DD6 && W(b, 73) == 0x380A1A26 && W(b, 74) == 0x01E02203 && W(b, 75) == 0xE7CC3456
    && W(b, 76) == 0xE6E60B69 && W(b, 77) == 0x00F60A00 && W(b, 78) == 0x5795EF4F && W(b, 79) == 0x822E0879
  }

  lemma {:induction false} FirstWords(b: seq<Octet>)
    requires OneBlock(b)
    ensures Words0(b)
  {
    hide BigEndian;
  }

  lemma {:induction false} NextWords16(b: seq<Octet>)
    requires |b| == 64 && Words0(b)
    ensures Words16(b)
  {

  }

  lemma {:induction false} NextWords32(b: seq<Octet>)
    requires |b| == 64 && Words16(b)
    ensures Words32(b)
  {

  }

  lemma {:induction false} NextWords48(b: seq<Octet>)
    requires |b| == 64 && Words32(b)
    ensures Words48(b)
  {

  }

  lemma {:induction false} NextWords64(b: seq<Octet>)
    requires |b| == 64 && Words48(b)
    ensures Words64(b)
  {

  }

  lemma {:induction false} StepsFrom0(b: seq<Octet>)
    requires |b| == 64 && Words0(b)
    ensures Steps(b, 8, Initial) == Registers(0x9E8C07D4, 0x993E30C1, 0x0FF1F290, 0xB3F52677, 0xF3763846)
  {
    hide W, Steps;
    StepsNext(b, 0, Initial);
    assert Steps(b, 1, Initial) == Registers(0x0116FC33, 0x67452301, 0x7BF36AE2, 0x98BADCFE, 0x10325476);
    StepsNext(b, 1, Initial);
    assert Steps(b, 2, Initial) == Registers(0x8990536D, 0x0116FC33, 0x59D148C0, 0x7BF36AE2, 0x98BADCFE);
    StepsNext(b, 2, Initial);
    assert Steps(b, 3, Initial) == Registers(0xA1390F08, 0x8990536D, 0xC045BF0C, 0x59D148C0, 0x7BF36AE2);
    StepsNext(b, 3, Initial);
    assert Steps(b, 4, Initial) == Registers(0xCDD8E11B, 0xA1390F08, 0x626414DB, 0xC045BF0C, 0x59D148C0);
    StepsNext(b, 4, Initial);
    assert Steps(b, 5, Initial) == Registers(0xCFD499DE, 0xCDD8E11B, 0x284E43C2, 0x626414DB, 0xC045BF0C);
    StepsNext(b, 5, Initial);
    assert Steps(b, 6, Initial) == Registers(0x3FC7CA40, 0xCFD499DE, 0xF3763846, 0x284E43C2, 0x626414DB);
    StepsNext(b, 6, Initial);
    assert Steps(b, 7, Initial) == Registers(0x993E30C1, 0x3FC7CA40, 0xB3F52677, 0xF3763846, 0x284E43C2);
    StepsNext(b, 7, Initial);
    assert Steps(b, 8, Initial) == Registers(0x9E8C07D4, 0x993E30C1, 0x0FF1F290, 0xB3F52677, 0xF3763846);
  }

  lemma {:induction false} StepsFrom8(b: seq<Octet>)
    requires |b| == 64 && Words0(b)
    requires Steps(b, 8, Initial) == Registers(0x9E8C07D4, 0x993E30C1, 0x0FF1F290, 0xB3F52677, 0xF3763846)
    ensures Steps(b, 16, Initial) == Registers(0x20BDD62F, 0x196BEE77, 0x644A3DA5, 0x1181ED99, 0x18C623F9)
  {
    hide W, Steps;
    StepsNext(b, 8, Initial);
    assert Steps(b, 9, Initial) == Registers(0x4B6AE328, 0x9E8C07D4, 0x664F8C30, 0x0FF1F290, 0xB3F52677);
    StepsNext(b, 9, Initial);
    assert Steps(b, 10, Initial) == Registers(0x8351F929, 0x4B6AE328, 0x27A301F5, 0x664F8C30, 0x0FF1F290);
    StepsNext(b, 10, Initial);
    assert Steps(b, 11, Initial) == Registers(0xFBDA9E89, 0x8351F929, 0x12DAB8CA, 0x27A301F5, 0x664F8C30);
    StepsNext(b, 11, Initial);
    assert Steps(b, 12, Initial) == Registers(0x63188FE4, 0xFBDA9E89, 0x60D47E4A, 0x12DAB8CA, 0x27A301F5);
    StepsNext(b, 12, Initial);
    assert Steps(b, 13, Initial) == Registers(0x4607B664, 0x63188FE4, 0x7EF6A7A2, 0x60D47E4A, 0x12DAB8CA);
    StepsNext(b, 13, Initial);
    assert Steps(b, 14, Initial) == Registers(0x9128F695, 0x4607B664, 0x18C623F9, 0x7EF6A7A2, 0x60D47E4A);
    StepsNext(b, 14, Initial);
    assert Steps(b, 15, Initial) == Registers(0x196BEE77, 0x9128F695, 0x1181ED99, 0x18C623F9, 0x7EF6A7A2);
    StepsNext(b, 15, Initial);
    assert Steps(b, 16, Initial) == Registers(0x20BDD62F, 0x196BEE77, 0x644A3DA5, 0x1181ED99, 0x18C623F9);
  }

  lemma {:induction false} StepsFrom16(b: seq<Octet>)
    requires |b| == 64 && Words16(b)
    requires Steps(b, 16, Initial) == Registers(0x20BDD62F, 0x196BEE77, 0x644A3DA5, 0x1181ED99, 0x18C623F9)
    ensures Steps(b, 24, Initial) == Registers(0xD541F12D, 0x21283486, 0x0CE88EFF, 0x868DEC32, 0x7F67875F)
  {
    hide W, Steps;
    StepsNext(b, 16, Initial);
    assert Steps(b, 17, Initial) == Registers(0x4E925823, 0x20BDD62F, 0xC65AFB9D, 0x644A3DA5, 0x1181ED99);
    StepsNext(b, 17, Initial);
    assert Steps(b, 18, Initial) == Registers(0x82AA6728, 0x4E925823, 0xC82F758B, 0xC65AFB9D, 0x644A3DA5);
    StepsNext(b, 18, Initial);
    assert Steps(b, 19, Initial) == Registers(0xDC64901D, 0x82AA6728, 0xD3A49608, 0xC82F758B, 0xC65AFB9D);
    StepsNext(b, 19, Initial);
    assert Steps(b, 20, Initial) == Registers(0xFD9E1D7D, 0xDC64901D, 0x20AA99CA, 0xD3A49608, 0xC82F758B);
    StepsNext(b, 20, Initial);
    assert Steps(b, 21, Initial) == Registers(0x1A37B0CA, 0xFD9E1D7D, 0x77192407, 0x20AA99CA, 0xD3A49608);
    StepsNext(b, 21, Initial);
    assert Steps(b, 22, Initial) == Registers(0x33A23BFC, 0x1A37B0CA, 0x7F67875F, 0x77192407, 0x20AA99CA);
    StepsNext(b, 22, Initial);
    assert Steps(b, 23, Initial) == Registers(0x21283486, 0x33A23BFC, 0x868DEC32, 0x7F67875F, 0x77192407);
    StepsNext(b, 23, Initial);
    assert Steps(b, 24, Initial) == Registers(0xD541F12D, 0x21283486, 0x0CE88EFF, 0x868DEC32, 0x7F67875F);
  }

  lemma {:induction false} StepsFrom24(b: seq<Octet>)
    requires |b| == 64 && Words16(b)
    requires Steps(b, 24, Initial) == Registers(0xD541F12D, 0x21283486, 0x0CE88EFF, 0x868DEC32, 0x7F67875F)
    ensures Steps(b, 32, Initial) == Registers(0x3B845D33, 0x1267B407, 0x717EEBD7, 0xA0DC2D4B, 0xD2AA1365)
  {
    hide W, Steps;
    StepsNext(b, 24, Initial);
    assert Steps(b, 25, Initial) == Registers(0xC7567DC6, 0xD541F12D, 0x884A0D21, 0x0CE88EFF, 0x868DEC32);
    StepsNext(b, 25, Initial);
    assert Steps(b, 26, Initial) == Registers(0x48413BA4, 0xC7567DC6, 0x75507C4B, 0x884A0D21, 0x0CE88EFF);
    StepsNext(b, 26, Initial);
    assert Steps(b, 27, Initial) == Registers(0xBE35FBD5, 0x48413BA4, 0xB1D59F71, 0x75507C4B, 0x884A0D21);
    StepsNext(b, 27, Initial);
    assert Steps(b, 28, Initial) == Registers(0x4AA84D97, 0xBE35FBD5, 0x12104EE9, 0xB1D59F71, 0x75507C4B);
    StepsNext(b, 28, Initial);
    assert Steps(b, 29, Initial) == Registers(0x8370B52E, 0x4AA84D97, 0x6F8D7EF5, 0x12104EE9, 0xB1D59F71);
    StepsNext(b, 29, Initial);
    assert Steps(b, 30, Initial) == Registers(0xC5FBAF5D, 0x8370B52E, 0xD2AA1365, 0x6F8D7EF5, 0x12104EE9);
    StepsNext(b, 30, Initial);
    assert Steps(b, 31, Initial) == Registers(0x1267B407, 0xC5FBAF5D, 0xA0DC2D4B, 0xD2AA1365, 0x6F8D7EF5);
    StepsNext(b, 31, Initial);
    assert Steps(b, 32, Initial) == Registers(0x3B845D33, 0x1267B407, 0x717EEBD7, 0xA0DC2D4B, 0xD2AA1365);
  }

  lemma {:induction false} StepsFrom32(b: seq<Octet>)
    requires |b| == 64 && Words32(b)
    requires Steps(b, 32, Initial) == Registers(0x3B845D33, 0x1267B407, 0x717EEBD7, 0xA0DC2D4B, 0xD2AA1365)
    ensures Steps(b, 40, Initial) == Registers(0x32DE1CBA, 0x4C986405, 0xF718E5CF, 0x03D447F6, 0xF72EEC32)
  {
    hide W, Steps;
    StepsNext(b, 32, Initial);
    assert Steps(b, 33, Initial) == Registers(0x046FAA0A, 0x3B845D33, 0xC499ED01, 0x717EEBD7, 0xA0DC2D4B);
    StepsNext(b, 33, Initial);
    assert Steps(b, 34, Initial) == Registers(0x2C0EBC11, 0x046FAA0A, 0xCEE1174C, 0xC499ED01, 0x717EEBD7);
    StepsNext(b, 34, Initial);
    assert Steps(b, 35, Initial) == Registers(0x21796AD4, 0x2C0EBC11, 0x811BEA82, 0xCEE1174C, 0xC499ED01);
    StepsNext(b, 35, Initial);
    assert Steps(b, 36, Initial) == Registers(0xDCBBB0CB, 0x21796AD4, 0x4B03AF04, 0x811BEA82, 0xCEE1174C);
    StepsNext(b, 36, Initial);
    assert Steps(b, 37, Initial) == Registers(0x0F511FD8, 0xDCBBB0CB, 0x085E5AB5, 0x4B03AF04, 0x811BEA82);
    StepsNext(b, 37, Initial);
    assert Steps(b, 38, Initial) == Registers(0xDC63973F, 0x0F511FD8, 0xF72EEC32, 0x085E5AB5, 0x4B03AF04);
    StepsNext(b, 38, Initial);
    assert Steps(b, 39, Initial) == Registers(0x4C986405, 0xDC63973F, 0x03D447F6, 0xF72EEC32, 0x085E5AB5);
    StepsNext(b, 39, Initial);
    assert Steps(b, 40, Initial) == Registers(0x32DE1CBA, 0x4C986405, 0xF718E5CF, 0x03D447F6, 0xF72EEC32);
  }

  lemma {:induction false} StepsFrom40(b: seq<Octet>)
    requires |b| == 64 && Words32(b)
    requires Steps(b, 40, Initial) == Registers(0x32DE1CBA, 0x4C986405, 0xF718E5CF, 0x03D447F6, 0xF72EEC32)
    ensures Steps(b, 48, Initial) == Registers(0xBEAD02CA, 0xA01B846C, 0x8714787C, 0x503CA382, 0xFB86C6AB)
  {
    hide W, Steps;
    StepsNext(b, 40, Initial);
    assert Steps(b, 41, Initial) == Registers(0xFC87DEDF, 0x32DE1CBA, 0x53261901, 0xF718E5CF, 0x03D447F6);
    StepsNext(b, 41, Initial);
    assert Steps(b, 42, Initial) == Registers(0x970A0D5C, 0xFC87DEDF, 0x8CB7872E, 0x53261901, 0xF718E5CF);
    StepsNext(b, 42, Initial);
    assert Steps(b, 43, Initial) == Registers(0x7F193DC5, 0x970A0D5C, 0xFF21F7B7, 0x8CB7872E, 0x53261901);
    StepsNext(b, 43, Initial);
    assert Steps(b, 44, Initial) == Registers(0xEE1B1AAF, 0x7F193DC5, 0x25C28357, 0xFF21F7B7, 0x8CB7872E);
    StepsNext(b, 44, Initial);
    assert Steps(b, 45, Initial) == Registers(0x40F28E09, 0xEE1B1AAF, 0x5FC64F71, 0x25C28357, 0xFF21F7B7);
    StepsNext(b, 45, Initial);
    assert Steps(b, 46, Initial) == Registers(0x1C51E1F2, 0x40F28E09, 0xFB86C6AB, 0x5FC64F71, 0x25C28357);
    StepsNext(b, 46, Initial);
    assert Steps(b, 47, Initial) == Registers(0xA01B846C, 0x1C51E1F2, 0x503CA382, 0xFB86C6AB, 0x5FC64F71);
    StepsNext(b, 47, Initial);
    assert Steps(b, 48, Initial) == Registers(0xBEAD02CA, 0xA01B846C, 0x8714787C, 0x503CA382, 0xFB86C6AB);
  }

  lemma {:induction false} StepsFrom48(b: seq<Octet>)
    requires |b| == 64 && Words48(b)
    requires Steps(b, 48, Initial) == Registers(0xBEAD02CA, 0xA01B846C, 0x8714787C, 0x503CA382, 0xFB86C6AB)
    ensures Steps(b, 56, Initial) == Registers(0x5E6456AF, 0x7B71F76D, 0x09FA7C76, 0x792410DB, 0x8E11EB59)
  {
    hide W, Steps;
    StepsNext(b, 48, Initial);
    assert Steps(b, 49, Initial) == Registers(0xBAF39337, 0xBEAD02CA, 0x2806E11B, 0x8714787C, 0x503CA382);
    StepsNext(b, 49, Initial);
    assert Steps(b, 50, Initial) == Registers(0x120731C5, 0xBAF39337, 0xAFAB40B2, 0x2806E11B, 0x8714787C);
    StepsNext(b, 50, Initial);
    assert Steps(b, 51, Initial) == Registers(0x641DB2CE, 0x120731C5, 0xEEBCE4CD, 0xAFAB40B2, 0x2806E11B);
    StepsNext(b, 51, Initial);
    assert Steps(b, 52, Initial) == Registers(0x3847AD66, 0x641DB2CE, 0x4481CC71, 0xEEBCE4CD, 0xAFAB40B2);
    StepsNext(b, 52, Initial);
    assert Steps(b, 53, Initial) == Registers(0xE490436D, 0x3847AD66, 0x99076CB3, 0x4481CC71, 0xEEBCE4CD);
    StepsNext(b, 53, Initial);
    assert Steps(b, 54, Initial) == Registers(0x27E9F1D8, 0xE490436D, 0x8E11EB59, 0x99076CB3, 0x4481CC71);
    StepsNext(b, 54, Initial);
    assert Steps(b, 55, Initial) == Registers(0x7B71F76D, 0x27E9F1D8, 0x792410DB, 0x8E11EB59, 0x99076CB3);
    StepsNext(b, 55, Initial);
    assert Steps(b, 56, Initial) == Registers(0x5E6456AF, 0x7B71F76D, 0x09FA7C76, 0x792410DB, 0x8E11EB59);
  }

  lemma {:induction false} StepsFrom56(b: seq<Octet>)
    requires |b| == 64 && Words48(b)
    requires Steps(b, 56, Initial) == Registers(0x5E6456AF, 0x7B71F76D, 0x09FA7C76, 0x792410DB, 0x8E11EB59)
    ensures Steps(b, 64, Initial) == Registers(0x6B61C9E1, 0xB66C020B, 0x9523272C, 0xF5D5B051, 0x8FD4B796)
  {
    hide W, Steps;
    StepsNext(b, 56, Initial);
    assert Steps(b, 57, Initial) == Registers(0xC846093F, 0x5E6456AF, 0x5EDC7DDB, 0x09FA7C76, 0x792410DB);
    StepsNext(b, 57, Initial);
    assert Steps(b, 58, Initial) == Registers(0xD262FF50, 0xC846093F, 0xD79915AB, 0x5EDC7DDB, 0x09FA7C76);
    StepsNext(b, 58, Initial);
    assert Steps(b, 59, Initial) == Registers(0x09D785FD, 0xD262FF50, 0xF211824F, 0xD79915AB, 0x5EDC7DDB);
    StepsNext(b, 59, Initial);
    assert Steps(b, 60, Initial) == Registers(0x3F52DE5A, 0x09D785FD, 0x3498BFD4, 0xF211824F, 0xD79915AB);
    StepsNext(b, 60, Initial);
    assert Steps(b, 61, Initial) == Registers(0xD756C147, 0x3F52DE5A, 0x4275E17F, 0x3498BFD4, 0xF211824F);
    StepsNext(b, 61, Initial);
    assert Steps(b, 62, Initial) == Registers(0x548C9CB2, 0xD756C147, 0x8FD4B796, 0x4275E17F, 0x3498BFD4);
    StepsNext(b, 62, Initial);
    assert Steps(b, 63, Initial) == Registers(0xB66C020B, 0x548C9CB2, 0xF5D5B051, 0x8FD4B796, 0x4275E17F);
    StepsNext(b, 63, Initial);
    assert Steps(b, 64, Initial) == Registers(0x6B61C9E1, 0xB66C020B, 0x9523272C, 0xF5D5B051, 0x8FD4B796);
  }

  lemma {:induction false} StepsFrom64(b: seq<Octet>)
    requires |b| == 64 && Words64(b)
    requires Steps(b, 64, Initial) == Registers(0x6B61C9E1, 0xB66C020B, 0x9523272C, 0xF5D5B051, 0x8FD4B796)
    ensures Steps(b, 72, Initial) == Registers(0x39859DE7, 0xC199F8C7, 0x8FC96230, 0x125C24F0, 0xDE37534A)
  {
    hide W, Steps;
    StepsNext(b, 64, Initial);
    assert Steps(b, 65, Initial) == Registers(0x19DFA7AC, 0x6B61C9E1, 0xED9B0082, 0x9523272C, 0xF5D5B051);
    StepsNext(b, 65, Initial);
    assert Steps(b, 66, Initial) == Registers(0x101655F9, 0x19DFA7AC, 0x5AD87278, 0xED9B0082, 0x9523272C);
    StepsNext(b, 66, Initial);
    assert Steps(b, 67, Initial) == Registers(0x0C3DF2B4, 0x101655F9, 0x0677E9EB, 0x5AD87278, 0xED9B0082);
    StepsNext(b, 67, Initial);
    assert Steps(b, 68, Initial) == Registers(0x78DD4D2B, 0x0C3DF2B4, 0x4405957E, 0x0677E9EB, 0x5AD87278);
    StepsNext(b, 68, Initial);
    assert Steps(b, 69, Initial) == Registers(0x497093C0, 0x78DD4D2B, 0x030F7CAD, 0x4405957E, 0x0677E9EB);
    StepsNext(b, 69, Initial);
    assert Steps(b, 70, Initial) == Registers(0x3F2588C2, 0x497093C0, 0xDE37534A, 0x030F7CAD, 0x4405957E);
    StepsNext(b, 70, Initial);
    assert Steps(b, 71, Initial) == Registers(0xC199F8C7, 0x3F2588C2, 0x125C24F0, 0xDE37534A, 0x030F7CAD);
    StepsNext(b, 71, Initial);
    assert Steps(b, 72, Initial) == Registers(0x39859DE7, 0xC199F8C7, 0x8FC96230, 0x125C24F0, 0xDE37534A);
  }

  lemma {:induction false} StepsFrom72(b: seq<Octet>)
    requires |b| == 64 && Words64(b)
    requires Steps(b, 72, Initial) == Registers(0x39859DE7, 0xC199F8C7, 0x8FC96230, 0x125C24F0, 0xDE37534A)
    ensures Steps(b, 80, Initial) == Registers(0x42541B35, 0x5738D5E1, 0x21834873, 0x681E6DF6, 0xD8FDF6AD)
  {
    hide W, Steps;
    StepsNext(b, 72, Initial);
    assert Steps(b, 73, Initial) == Registers(0xEDB42DE4, 0x39859DE7, 0xF0667E31, 0x8FC96230, 0x125C24F0);
    StepsNext(b, 73, Initial);
    assert Steps(b, 74, Initial) == Registers(0x11793F6F, 0xEDB42DE4, 0xCE616779, 0xF0667E31, 0x8FC96230);
    StepsNext(b, 74, Initial);
    assert Steps(b, 75, Initial) == Registers(0x5EE76897, 0x11793F6F, 0x3B6D0B79, 0xCE616779, 0xF0667E31);
    StepsNext(b, 75, Initial);
    assert Steps(b, 76, Initial) == Registers(0x63F7DAB7, 0x5EE76897, 0xC45E4FDB, 0x3B6D0B79, 0xCE616779);
    StepsNext(b, 76, Initial);
    assert Steps(b, 77, Initial) == Registers(0xA079B7D9, 0x63F7DAB7, 0xD7B9DA25, 0xC45E4FDB, 0x3B6D0B79);
    StepsNext(b, 77, Initial);
    assert Steps(b, 78, Initial) == Registers(0x860D21CC, 0xA079B7D9, 0xD8FDF6AD, 0xD7B9DA25, 0xC45E4FDB);
    StepsNext(b, 78, Initial);
    assert Steps(b, 79, Initial) == Registers(0x5738D5E1, 0x860D21CC, 0x681E6DF6, 0xD8FDF6AD, 0xD7B9DA25);
    StepsNext(b, 79, Initial);
    assert Steps(b, 80, Initial) == Registers(0x42541B35, 0x5738D5E1, 0x21834873, 0x681E6DF6, 0xD8FDF6AD);
  }

  /** All eighty steps and the sum with the initial value. */
  lemma {:induction false} CompressAbc(b: seq<Octet>)
    requires OneBlock(b)
    ensures Compress(Initial, b) == Registers(0xA9993E36, 0x4706816A, 0xBA3E2571, 0x7850C26C, 0x9CD0D89D)
  {
    hide W, Steps, Words0, Words16, Words32, Words48, Words64;
    FirstWords(b);
    NextWords16(b);
    NextWords32(b);
    NextWords48(b);
    NextWords64(b);
    StepsFrom0(b);
    StepsFrom8(b);
    StepsFrom16(b);
    StepsFrom24(b);
    StepsFrom32(b);
    StepsFrom40(b);
    StepsFrom48(b);
    StepsFrom56(b);
    StepsFrom64(b);
    StepsFrom72(b);
  }

  /** The bytes of the padded message. */
  ghost predicate PaddedBytes(b: seq<Octet>) {
    && |b| == 64 && b[0] == 0x61 && b[1] == 0x62 && b[2] == 0x63 && b[3] == 0x80
    && (forall i :: 4 <= i < 63 ==> b[i] == 0) && b[63] == 0x18
  }

  lemma {:induction false} PaddedAbc()
    ensures PaddedBytes(Padded(Abc))
  {
    hide LengthBytes, PaddedBytes;
    LengthThree();
    Layout(Zeros(52), LengthBytes(3));
    assert Padded(Abc) == Abc + [0x80] + Zeros(52) + LengthBytes(3);
  }

  lemma {:induction false} LengthThree()
    ensures LengthBytes(3) == [0, 0, 0, 0, 0, 0, 0, 0x18]
  {
    hide Four;
    assert 8 * 3 / TWO32 % TWO32 == 0 && 8 * 3 % TWO32 == 24;
    FourOfZero();
    FourOf24();
  }

  lemma {:induction false} FourOfZero()
    ensures Four(0) == [0, 0, 0, 0]
  {
  }

  lemma {:induction false} FourOf24()
    ensures Four(24) == [0, 0, 0, 0x18]
  {
  }

  lemma {:induction false} Layout(zeros: seq<Octet>, length: seq<Octet>)
    requires zeros == Zeros(52) && length == [0, 0, 0, 0, 0, 0, 0, 0x18]
    ensures PaddedBytes(Abc + [0x80] + zeros + length)
  {
    var b := Abc + [0x80] + zeros + length;
    assert forall i :: 4 <= i < 56 ==> b[i] == zeros[i - 4];
    assert forall i :: 56 <= i < 64 ==> b[i] == length[i - 56];
  }

  lemma {:induction false} PaddedBlock(b: seq<Octet>)
    requires PaddedBytes(b)
    ensures OneBlock(b)
  {
  }

  lemma {:induction false} HashOne(h: Registers, b: seq<Octet>)
    requires |b| == 64
    ensures Hash(h, b) == Compress(h, b)
  {
    hide Compress;
    assert b[..64] == b && b[64..] == [];
  }

  lemma {:induction false} OutputAbc(h: Registers)
    requires h == Registers(0xA9993E36, 0x4706816A, 0xBA3E2571, 0x7850C26C, 0x9CD0D89D)
    ensures Output(h) == [0xA9, 0x99, 0x3E, 0x36,
                          0x47, 0x06, 0x81, 0x6A,
                          0xBA, 0x3E, 0x25, 0x71,
                          0x78, 0x50, 0xC2, 0x6C,
                          0x9C, 0xD0, 0xD8, 0x9D]
  {
  }

  /** The digest the standard publishes. */
  lemma {:induction false} DigestAbc()
    ensures Digest(Abc) == [0xA9, 0x99, 0x3E, 0x36,
                            0x47, 0x06, 0x81, 0x6A,
                            0xBA, 0x3E, 0x25, 0x71,
                            0x78, 0x50, 0xC2, 0x6C,
                            0x9C, 0xD0, 0xD8, 0x9D]
  {
    hide Compress, Padded, OneBlock, Hash, Initial;
    var b := Padded(Abc);
    PaddedAbc();
    PaddedBlock(b);
    CompressAbc(b);
    HashOne(Initial, b);
    OutputAbc(Compress(Initial, b));
    hide Output;
  }
}
