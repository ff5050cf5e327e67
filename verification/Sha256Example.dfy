/** The one-block example of FIPS 180-4: the digest of "abc". */
module Sha256Example {
  import opened Bytes
  import opened BitStrings
  import opened WordFacts
  import opened MachineWords
  import opened Sha256Machine
  import opened Sha256

  // ----- the functions on bit strings are those on machine words

  lemma {:induction false} TurnedAdd(x: bv32, a: nat, b: nat)
    ensures Turned(x, a + b) == Turned(Turned(x, a), b)
  {
    hide Turn;
    if b > 0 {
      TurnedAdd(x, a, b - 1);
    }
  }

  lemma {:induction false} ShiftedAdd(x: bv32, a: nat, b: nat)
    ensures Shifted(x, a + b) == Shifted(Shifted(x, a), b)
  {
    hide Halved;
    if b > 0 {
      ShiftedAdd(x, a, b - 1);
    }
  }

  lemma Turned1(x: bv32)
    ensures Turned(x, 1) == Rotated(x, 1)
  {
    hide Turn, Rotated;
    assert Turned(x, 0) == x;
    Rotate1(x);
  }

  lemma Turned2(x: bv32)
    ensures Turned(x, 2) == Rotated(x, 2)
  {
    hide Turned, Rotated;
    TurnedAdd(x, 1, 1);
    Turned1(x);
    Turned1(Turned(x, 1));
    Rotate2(x);
  }

  lemma Turned4(x: bv32)
    ensures Turned(x, 4) == Rotated(x, 4)
  {
    hide Turned, Rotated;
    TurnedAdd(x, 2, 2);
    Turned2(x);
    Turned2(Turned(x, 2));
    Rotate4(x);
  }

  lemma Turned6(x: bv32)
    ensures Turned(x, 6) == Rotated(x, 6)
  {
    hide Turned, Rotated;
    TurnedAdd(x, 4, 2);
    Turned4(x);
    Turned2(Turned(x, 4));
    Rotate6(x);
  }

  lemma Turned7(x: bv32)
    ensures Turned(x, 7) == Rotated(x, 7)
  {
    hide Turned, Rotated;
    TurnedAdd(x, 6, 1);
    Turned6(x);
    Turned1(Turned(x, 6));
    Rotate7(x);
  }

  lemma Turned11(x: bv32)
    ensures Turned(x, 11) == Rotated(x, 11)
  {
    hide Turned, Rotated;
    TurnedAdd(x, 7, 4);
    Turned7(x);
    Turned4(Turned(x, 7));
    Rotate11(x);
  }

  lemma Turned13(x: bv32)
    ensures Turned(x, 13) == Rotated(x, 13)
  {
    hide Turned, Rotated;
    TurnedAdd(x, 11, 2);
    Turned11(x);
    Turned2(Turned(x, 11));
    Rotate13(x);
  }

  lemma Turned17(x: bv32)
    ensures Turned(x, 17) == Rotated(x, 17)
  {
    hide Turned, Rotated;
    TurnedAdd(x, 13, 4);
    Turned13(x);
    Turned4(Turned(x, 13));
    Rotate17(x);
  }

  lemma Turned18(x: bv32)
    ensures Turned(x, 18) == Rotated(x, 18)
  {
    hide Turned, Rotated;
    TurnedAdd(x, 17, 1);
    Turned17(x);
    Turned1(Turned(x, 17));
    Rotate18(x);
  }

  lemma Turned19(x: bv32)
    ensures Turned(x, 19) == Rotated(x, 19)
  {
    hide Turned, Rotated;
    TurnedAdd(x, 18, 1);
    Turned18(x);
    Turned1(Turned(x, 18));
    Rotate19(x);
  }

  lemma Turned22(x: bv32)
    ensures Turned(x, 22) == Rotated(x, 22)
  {
    hide Turned, Rotated;
    TurnedAdd(x, 18, 4);
    Turned18(x);
    Turned4(Turned(x, 18));
    Rotate22(x);
  }

  lemma Turned25(x: bv32)
    ensures Turned(x, 25) == Rotated(x, 25)
  {
    hide Turned, Rotated;
    TurnedAdd(x, 18, 7);
    Turned18(x);
    Turned7(Turned(x, 18));
    Rotate25(x);
  }

  lemma Shifted1(x: bv32)
    ensures Shifted(x, 1) == Dropped(x, 1)
  {
    hide Halved, Dropped;
    assert Shifted(x, 0) == x;
    Drop1(x);
  }

  lemma Shifted2(x: bv32)
    ensures Shifted(x, 2) == Dropped(x, 2)
  {
    hide Shifted, Dropped;
    ShiftedAdd(x, 1, 1);
    Shifted1(x);
    Shifted1(Shifted(x, 1));
    Drop2(x);
  }

  lemma Shifted3(x: bv32)
    ensures Shifted(x, 3) == Dropped(x, 3)
  {
    hide Shifted, Dropped;
    ShiftedAdd(x, 2, 1);
    Shifted2(x);
    Shifted1(Shifted(x, 2));
    Drop3(x);
  }

  lemma Shifted5(x: bv32)
    ensures Shifted(x, 5) == Dropped(x, 5)
  {
    hide Shifted, Dropped;
    ShiftedAdd(x, 3, 2);
    Shifted3(x);
    Shifted2(Shifted(x, 3));
    Drop5(x);
  }

  lemma Shifted10(x: bv32)
    ensures Shifted(x, 10) == Dropped(x, 10)
  {
    hide Shifted, Dropped;
    ShiftedAdd(x, 5, 5);
    Shifted5(x);
    Shifted5(Shifted(x, 5));
    Drop10(x);
  }

  lemma PackedSum0(x: Word)
    ensures Packed(Sum0(x)) == MachineSum0(Packed(x))
  {
    hide Packed, Turned, Shifted, Xor, ExclusiveOr, Rotated, Dropped;
    PackedXor(Xor(RotR(x, 2), RotR(x, 13)), RotR(x, 22));
    PackedXor(RotR(x, 2), RotR(x, 13));
    PackedRotate(x, 2);
    PackedRotate(x, 13);
    PackedRotate(x, 22);
    Turned2(Packed(x));
    Turned13(Packed(x));
    Turned22(Packed(x));
  }

  lemma PackedSum1(x: Word)
    ensures Packed(Sum1(x)) == MachineSum1(Packed(x))
  {
    hide Packed, Turned, Shifted, Xor, ExclusiveOr, Rotated, Dropped;
    PackedXor(Xor(RotR(x, 6), RotR(x, 11)), RotR(x, 25));
    PackedXor(RotR(x, 6), RotR(x, 11));
    PackedRotate(x, 6);
    PackedRotate(x, 11);
    PackedRotate(x, 25);
    Turned6(Packed(x));
    Turned11(Packed(x));
    Turned25(Packed(x));
  }

  lemma PackedSigma0(x: Word)
    ensures Packed(Sigma0(x)) == MachineSigma0(Packed(x))
  {
    hide Packed, Turned, Shifted, Xor, ExclusiveOr, Rotated, Dropped;
    PackedXor(Xor(RotR(x, 7), RotR(x, 18)), ShR(x, 3));
    PackedXor(RotR(x, 7), RotR(x, 18));
    PackedRotate(x, 7);
    PackedRotate(x, 18);
    PackedShift(x, 3);
    Turned7(Packed(x));
    Turned18(Packed(x));
    Shifted3(Packed(x));
  }

  lemma PackedSigma1(x: Word)
    ensures Packed(Sigma1(x)) == MachineSigma1(Packed(x))
  {
    hide Packed, Turned, Shifted, Xor, ExclusiveOr, Rotated, Dropped;
    PackedXor(Xor(RotR(x, 17), RotR(x, 19)), ShR(x, 10));
    PackedXor(RotR(x, 17), RotR(x, 19));
    PackedRotate(x, 17);
    PackedRotate(x, 19);
    PackedShift(x, 10);
    Turned17(Packed(x));
    Turned19(Packed(x));
    Shifted10(Packed(x));
  }

  lemma PackedCh(x: Word, y: Word, z: Word)
    ensures Packed(Ch(x, y, z)) == MachineCh(Packed(x), Packed(y), Packed(z))
  {
    hide Packed, Xor, And, Not, ExclusiveOr, Conjunction, Complement;
    PackedXor(And(x, y), And(Not(x), z));
    PackedAnd(x, y);
    PackedAnd(Not(x), z);
    PackedNot(x);
  }

  lemma PackedMaj(x: Word, y: Word, z: Word)
    ensures Packed(Maj(x, y, z)) == MachineMaj(Packed(x), Packed(y), Packed(z))
  {
    hide Packed, Xor, And, ExclusiveOr, Conjunction;
    PackedXor(Xor(And(x, y), And(x, z)), And(y, z));
    PackedXor(And(x, y), And(x, z));
    PackedAnd(x, y);
    PackedAnd(x, z);
    PackedAnd(y, z);
  }

  lemma PackedAdd(x: Word, y: Word)
    ensures Packed(Add(x, y)) == Plus(Packed(x), Packed(y))
  {
    hide Packed, Plus, ToBits, Value;
    PackedSum(x, y);
  }

  function Packed8(r: Registers): Machine8 {
    Machine8(Packed(r.a), Packed(r.b), Packed(r.c), Packed(r.d), Packed(r.e), Packed(r.f), Packed(r.g), Packed(r.h))
  }

  lemma PackedRound(r: Registers, k: Word, w: Word)
    ensures Packed8(Round(r, k, w)) == MachineRound(Packed8(r), Packed(k), Packed(w))
  {
    hide Packed, Plus, Add, Sum0, Sum1, Ch, Maj, MachineSum0, MachineSum1, MachineCh, MachineMaj;
    PackedSum1(r.e);
    PackedCh(r.e, r.f, r.g);
    PackedSum0(r.a);
    PackedMaj(r.a, r.b, r.c);
    var s1 := Add(r.h, Sum1(r.e));
    var s2 := Add(s1, Ch(r.e, r.f, r.g));
    var s3 := Add(s2, k);
    var t1, t2 := Add(s3, w), Add(Sum0(r.a), Maj(r.a, r.b, r.c));
    PackedAdd(r.h, Sum1(r.e));
    PackedAdd(s1, Ch(r.e, r.f, r.g));
    PackedAdd(s2, k);
    PackedAdd(s3, w);
    PackedAdd(Sum0(r.a), Maj(r.a, r.b, r.c));
    PackedAdd(t1, t2);
    PackedAdd(r.d, t1);
  }

  lemma PackedNext(block: seq<byte>, t: nat)
    requires |block| == 64 && t >= 16
    ensures Packed(W(block, t)) == MachineNext(Packed(W(block, t - 16)), Packed(W(block, t - 15)),
                                               Packed(W(block, t - 7)), Packed(W(block, t - 2)))
  {
    hide Packed, Plus, Add, Sigma0, Sigma1, MachineSigma0, MachineSigma1;
    var w16, w15, w7, w2 := W(block, t - 16), W(block, t - 15), W(block, t - 7), W(block, t - 2);
    PackedSigma0(w15);
    PackedSigma1(w2);
    PackedAdd(w16, Sigma0(w15));
    PackedAdd(Add(w16, Sigma0(w15)), w7);
    PackedAdd(Add(Add(w16, Sigma0(w15)), w7), Sigma1(w2));
  }

  // ----- bytes and words

  lemma ByteValue(b: byte)
    ensures Value(ToBits(b, 8)) == b
  {
    hide ToBits, Value;
    EightBits();
    BitsRoundTrip(b, 8);
  }

  /** The number with these bytes, the most significant first. */
  function Joined(b: seq<byte>): nat
    requires |b| == 4
  {
    0x100_0000 * b[0] as int + 0x1_0000 * b[1] as int + 0x100 * b[2] as int + b[3] as int
  }

  lemma Be32Value(b: seq<byte>)
    requires |b| == 4
    ensures Value(Be32(b)) == Joined(b)
  {
    hide ToBits, Value, Power2;
    EightBits();
    var x0, x1, x2, x3 := ToBits(b[0], 8), ToBits(b[1], 8), ToBits(b[2], 8), ToBits(b[3], 8);
    ValueConcat(x0 + x1 + x2, x3);
    ValueConcat(x0 + x1, x2);
    ValueConcat(x0, x1);
    ByteValue(b[0]);
    ByteValue(b[1]);
    ByteValue(b[2]);
    ByteValue(b[3]);
  }

  /** Writing a word out as bytes undoes reading it from bytes. */
  lemma WordBytesOf(b: seq<byte>)
    requires |b| == 4
    ensures WordBytes(Be32(b)) == b
  {
    hide ToBits, Value;
    var w := Be32(b);
    assert w[..8] == ToBits(b[0], 8) && w[8..16] == ToBits(b[1], 8);
    assert w[16..24] == ToBits(b[2], 8) && w[24..] == ToBits(b[3], 8);
    ByteValue(b[0]);
    ByteValue(b[1]);
    ByteValue(b[2]);
    ByteValue(b[3]);
  }

  lemma Be32Word(b: seq<byte>, v: nat)
    requires |b| == 4 && v == Joined(b)
    ensures Be32(b) == ToBits(v, 32)
  {
    hide ToBits, Value;
    Be32Value(b);
    ValueRoundTrip(Be32(b));
  }

  // ----- the padded block

  const ABC: seq<byte> := [0x61, 0x62, 0x63]

  /** The message, the one bit, zeros, and the length of 24 bits. */
  function AbcBlock(): (block: seq<byte>)
    ensures |block| == 64
  {
    ABC + [0x80] + Zeros(59) + [24]
  }

  lemma {:induction false} LeadingZeros(v: nat, n: nat, m: nat)
    requires v < Power2(m)
    ensures ToBits(v, n + m) == False(n) + ToBits(v, m)
    decreases m
  {
    if m == 0 {
      ZerosOnly(n);
    } else {
      LeadingZeros(v / 2, n, m - 1);
    }
  }

  lemma {:induction false} ZerosOnly(n: nat)
    ensures ToBits(0, n) == False(n)
  {
    if n > 0 {
      ZerosOnly(n - 1);
      assert False(n) == False(n - 1) + [false];
    }
  }

  lemma {:induction false} FalseValue(n: nat)
    ensures Value(False(n)) == 0
  {
    if n > 0 {
      FalseValue(n - 1);
      assert False(n)[..n - 1] == False(n - 1);
    }
  }

  lemma ShortLength(n: nat)
    requires n < 256
    ensures Be64(n) == Zeros(7) + [n]
  {
    hide ToBits, Value, Power2;
    EightBits();
    LeadingZeros(n, 56, 8);
    var bits := ToBits(n, 64);
    forall i | 0 <= i < 8
      ensures Be64(n)[i] == (Zeros(7) + [n])[i]
    {
      var octet := bits[56 - 8 * (7 - i)..64 - 8 * (7 - i)];
      if i < 7 {
        assert octet == False(8);
        FalseValue(8);
      } else {
        assert octet == ToBits(n, 8);
        ByteValue(n);
      }
    }
  }

  lemma AbcPadded()
    ensures Pad(ABC) == AbcBlock()
  {
    hide Be64;
    ShortLength(24);
    assert Zeros(52) + Zeros(7) == Zeros(59);
  }

  // ----- the message schedule

  /** Word `t` of the schedule, as a machine word. */
  predicate Word(block: seq<byte>, t: nat, w: bv32) {
    hide Packed, W;
    |block| == 64 && Packed(W(block, t)) == w
  }

  lemma FirstWords(block: seq<byte>, t: nat)
    requires block == AbcBlock() && t < 16
    ensures Word(block, t, if t == 0 then 0x61626380 else if t == 15 then 0x18 else 0)
  {
    hide Packed, ToBits, Nibble, Hex8, Be32;
    var bytes := block[4 * t..4 * t + 4];
    Nibbles();
    BlockWords();
    if t == 0 {
      assert bytes == [0x61, 0x62, 0x63, 0x80];
      Be32Word(bytes, 0x61626380);
      SpelledWord(6, 1, 6, 2, 6, 3, 8, 0);
    } else if t == 15 {
      assert bytes == [0, 0, 0, 0x18];
      Be32Word(bytes, 0x18);
      SpelledWord(0, 0, 0, 0, 0, 0, 1, 8);
    } else {
      assert bytes == [0, 0, 0, 0];
      Be32Word(bytes, 0);
      SpelledWord(0, 0, 0, 0, 0, 0, 0, 0);
    }
  }

  lemma NextWord(block: seq<byte>, t: nat, w16: bv32, w15: bv32, w7: bv32, w2: bv32)
    requires t >= 16 && Word(block, t - 16, w16) && Word(block, t - 15, w15)
    requires Word(block, t - 7, w7) && Word(block, t - 2, w2)
    ensures Word(block, t, MachineNext(w16, w15, w7, w2))
  {
    hide Packed, W, MachineNext;
    PackedNext(block, t);
  }

  lemma Schedule0(block: seq<byte>)
    requires block == AbcBlock()
    ensures Word(block, 0, 0x61626380) && Word(block, 1, 0x00000000)
    ensures Word(block, 2, 0x00000000) && Word(block, 3, 0x00000000)
    ensures Word(block, 4, 0x00000000) && Word(block, 5, 0x00000000)
    ensures Word(block, 6, 0x00000000) && Word(block, 7, 0x00000000)
  {
    hide Word;
    FirstWords(block, 0);
    FirstWords(block, 1);
    FirstWords(block, 2);
    FirstWords(block, 3);
    FirstWords(block, 4);
    FirstWords(block, 5);
    FirstWords(block, 6);
    FirstWords(block, 7);
  }

  lemma Schedule8(block: seq<byte>)
    requires block == AbcBlock()
    ensures Word(block, 8, 0x00000000) && Word(block, 9, 0x00000000)
    ensures Word(block, 10, 0x00000000) && Word(block, 11, 0x00000000)
    ensures Word(block, 12, 0x00000000) && Word(block, 13, 0x00000000)
    ensures Word(block, 14, 0x00000000) && Word(block, 15, 0x00000018)
  {
    hide Word;
    FirstWords(block, 8);
    FirstWords(block, 9);
    FirstWords(block, 10);
    FirstWords(block, 11);
    FirstWords(block, 12);
    FirstWords(block, 13);
    FirstWords(block, 14);
    FirstWords(block, 15);
  }

  lemma Schedule16(block: seq<byte>)
    requires block == AbcBlock()
    ensures Word(block, 16, 0x61626380) && Word(block, 17, 0x000F0000)
    ensures Word(block, 18, 0x7DA86405) && Word(block, 19, 0x600003C6)
    ensures Word(block, 20, 0x3E9D7B78) && Word(block, 21, 0x0183FC00)
    ensures Word(block, 22, 0x12DCBFDB) && Word(block, 23, 0xE2E2C38E)
  {
    hide Word, MachineNext, AbcBlock;
    Schedule0(block);
    Schedule8(block);
    Words16();
    NextWord(block, 16, 0x61626380, 0x00000000, 0x00000000, 0x00000000);
    NextWord(block, 17, 0x00000000, 0x00000000, 0x00000000, 0x00000018);
    NextWord(block, 18, 0x00000000, 0x00000000, 0x00000000, 0x61626380);
    NextWord(block, 19, 0x00000000, 0x00000000, 0x00000000, 0x000F0000);
    NextWord(block, 20, 0x00000000, 0x00000000, 0x00000000, 0x7DA86405);
    NextWord(block, 21, 0x00000000, 0x00000000, 0x00000000, 0x600003C6);
    NextWord(block, 22, 0x00000000, 0x00000000, 0x00000018, 0x3E9D7B78);
    NextWord(block, 23, 0x00000000, 0x00000000, 0x61626380, 0x0183FC00);
  }

  lemma Schedule24(block: seq<byte>)
    requires block == AbcBlock()
    ensures Word(block, 24, 0xC8215C1A) && Word(block, 25, 0xB73679A2)
    ensures Word(block, 26, 0xE5BC3909) && Word(block, 27, 0x32663C5B)
    ensures Word(block, 28, 0x9D209D67) && Word(block, 29, 0xEC8726CB)
    ensures Word(block, 30, 0x702138A4) && Word(block, 31, 0xD3B7973B)
  {
    hide Word, MachineNext, AbcBlock;
    Schedule8(block);
    Schedule16(block);
    Words24();
    NextWord(block, 24, 0x00000000, 0x00000000, 0x000F0000, 0x12DCBFDB);
    NextWord(block, 25, 0x00000000, 0x00000000, 0x7DA86405, 0xE2E2C38E);
    NextWord(block, 26, 0x00000000, 0x00000000, 0x600003C6, 0xC8215C1A);
    NextWord(block, 27, 0x00000000, 0x00000000, 0x3E9D7B78, 0xB73679A2);
    NextWord(block, 28, 0x00000000, 0x00000000, 0x0183FC00, 0xE5BC3909);
    NextWord(block, 29, 0x00000000, 0x00000000, 0x12DCBFDB, 0x32663C5B);
    NextWord(block, 30, 0x00000000, 0x00000018, 0xE2E2C38E, 0x9D209D67);
    NextWord(block, 31, 0x00000018, 0x61626380, 0xC8215C1A, 0xEC8726CB);
  }

  lemma Schedule32(block: seq<byte>)
    requires block == AbcBlock()
    ensures Word(block, 32, 0x93F5997F) && Word(block, 33, 0x3B68BA73)
    ensures Word(block, 34, 0xAFF4FFC1) && Word(block, 35, 0xF10A5C62)
    ensures Word(block, 36, 0x0A8B3996) && Word(block, 37, 0x72AF830A)
    ensures Word(block, 38, 0x9409E33E) && Word(block, 39, 0x24641522)
  {
    hide Word, MachineNext, AbcBlock;
    Schedule16(block);
    Schedule24(block);
    Words32();
    NextWord(block, 32, 0x61626380, 0x000F0000, 0xB73679A2, 0x702138A4);
    NextWord(block, 33, 0x000F0000, 0x7DA86405, 0xE5BC3909, 0xD3B7973B);
    NextWord(block, 34, 0x7DA86405, 0x600003C6, 0x32663C5B, 0x93F5997F);
    NextWord(block, 35, 0x600003C6, 0x3E9D7B78, 0x9D209D67, 0x3B68BA73);
    NextWord(block, 36, 0x3E9D7B78, 0x0183FC00, 0xEC8726CB, 0xAFF4FFC1);
    NextWord(block, 37, 0x0183FC00, 0x12DCBFDB, 0x702138A4, 0xF10A5C62);
    NextWord(block, 38, 0x12DCBFDB, 0xE2E2C38E, 0xD3B7973B, 0x0A8B3996);
    NextWord(block, 39, 0xE2E2C38E, 0xC8215C1A, 0x93F5997F, 0x72AF830A);
  }

  lemma Schedule40(block: seq<byte>)
    requires block == AbcBlock()
    ensures Word(block, 40, 0x9F47BF94) && Word(block, 41, 0xF0A64F5A)
    ensures Word(block, 42, 0x3E246A79) && Word(block, 43, 0x27333BA3)
    ensures Word(block, 44, 0x0C4763F2) && Word(block, 45, 0x840ABF27)
    ensures Word(block, 46, 0x7A290D5D) && Word(block, 47, 0x065C43DA)
  {
    hide Word, MachineNext, AbcBlock;
    Schedule24(block);
    Schedule32(block);
    Words40();
    NextWord(block, 40, 0xC8215C1A, 0xB73679A2, 0x3B68BA73, 0x9409E33E);
    NextWord(block, 41, 0xB73679A2, 0xE5BC3909, 0xAFF4FFC1, 0x24641522);
    NextWord(block, 42, 0xE5BC3909, 0x32663C5B, 0xF10A5C62, 0x9F47BF94);
    NextWord(block, 43, 0x32663C5B, 0x9D209D67, 0x0A8B3996, 0xF0A64F5A);
    NextWord(block, 44, 0x9D209D67, 0xEC8726CB, 0x72AF830A, 0x3E246A79);
    NextWord(block, 45, 0xEC8726CB, 0x702138A4, 0x9409E33E, 0x27333BA3);
    NextWord(block, 46, 0x702138A4, 0xD3B7973B, 0x24641522, 0x0C4763F2);
    NextWord(block, 47, 0xD3B7973B, 0x93F5997F, 0x9F47BF94, 0x840ABF27);
  }

  lemma Schedule48(block: seq<byte>)
    requires block == AbcBlock()
    ensures Word(block, 48, 0xFB3E89CB) && Word(block, 49, 0xCC7617DB)
    ensures Word(block, 50, 0xB9E66C34) && Word(block, 51, 0xA9993667)
    ensures Word(block, 52, 0x84BADEDD) && Word(block, 53, 0xC21462BC)
    ensures Word(block, 54, 0x1487472C) && Word(block, 55, 0xB20F7A99)
  {
    hide Word, MachineNext, AbcBlock;
    Schedule32(block);
    Schedule40(block);
    Words48();
    NextWord(block, 48, 0x93F5997F, 0x3B68BA73, 0xF0A64F5A, 0x7A290D5D);
    NextWord(block, 49, 0x3B68BA73, 0xAFF4FFC1, 0x3E246A79, 0x065C43DA);
    NextWord(block, 50, 0xAFF4FFC1, 0xF10A5C62, 0x27333BA3, 0xFB3E89CB);
    NextWord(block, 51, 0xF10A5C62, 0x0A8B3996, 0x0C4763F2, 0xCC7617DB);
    NextWord(block, 52, 0x0A8B3996, 0x72AF830A, 0x840ABF27, 0xB9E66C34);
    NextWord(block, 53, 0x72AF830A, 0x9409E33E, 0x7A290D5D, 0xA9993667);
    NextWord(block, 54, 0x9409E33E, 0x24641522, 0x065C43DA, 0x84BADEDD);
    NextWord(block, 55, 0x24641522, 0x9F47BF94, 0xFB3E89CB, 0xC21462BC);
  }

  lemma Schedule56(block: seq<byte>)
    requires block == AbcBlock()
    ensures Word(block, 56, 0xEF57B9CD) && Word(block, 57, 0xEBE6B238)
    ensures Word(block, 58, 0x9FE3095E) && Word(block, 59, 0x78BC8D4B)
    ensures Word(block, 60, 0xA43FCF15) && Word(block, 61, 0x668B2FF8)
    ensures Word(block, 62, 0xEEABA2CC) && Word(block, 63, 0x12B1EDEB)
  {
    hide Word, MachineNext, AbcBlock;
    Schedule40(block);
    Schedule48(block);
    Words56();
    NextWord(block, 56, 0x9F47BF94, 0xF0A64F5A, 0xCC7617DB, 0x1487472C);
    NextWord(block, 57, 0xF0A64F5A, 0x3E246A79, 0xB9E66C34, 0xB20F7A99);
    NextWord(block, 58, 0x3E246A79, 0x27333BA3, 0xA9993667, 0xEF57B9CD);
    NextWord(block, 59, 0x27333BA3, 0x0C4763F2, 0x84BADEDD, 0xEBE6B238);
    NextWord(block, 60, 0x0C4763F2, 0x840ABF27, 0xC21462BC, 0x9FE3095E);
    NextWord(block, 61, 0x840ABF27, 0x7A290D5D, 0x1487472C, 0x78BC8D4B);
    NextWord(block, 62, 0x7A290D5D, 0x065C43DA, 0xB20F7A99, 0xA43FCF15);
    NextWord(block, 63, 0x065C43DA, 0xFB3E89CB, 0xEF57B9CD, 0x668B2FF8);
  }

  // ----- the constants

  predicate Constant(t: nat, k: nat, m: bv32) {
    hide Packed, ToBits;
    t < 64 && K[t] == k && Packed(ToBits(k, 32)) == m
  }

  lemma AbcConstants0()
    ensures Constant(0, 0x428A2F98, 0x428A2F98) && Constant(1, 0x71374491, 0x71374491)
    ensures Constant(2, 0xB5C0FBCF, 0xB5C0FBCF) && Constant(3, 0xE9B5DBA5, 0xE9B5DBA5)
    ensures Constant(4, 0x3956C25B, 0x3956C25B) && Constant(5, 0x59F111F1, 0x59F111F1)
    ensures Constant(6, 0x923F82A4, 0x923F82A4) && Constant(7, 0xAB1C5ED5, 0xAB1C5ED5)
  {
    hide Packed, ToBits, Nibble, Hex8;
    Nibbles();
    Constants0();
    assert K[0..8] == K0;
    assert K[0] == K[0..8][0] == 0x428A2F98;
    assert K[1] == K[0..8][1] == 0x71374491;
    assert K[2] == K[0..8][2] == 0xB5C0FBCF;
    assert K[3] == K[0..8][3] == 0xE9B5DBA5;
    assert K[4] == K[0..8][4] == 0x3956C25B;
    assert K[5] == K[0..8][5] == 0x59F111F1;
    assert K[6] == K[0..8][6] == 0x923F82A4;
    assert K[7] == K[0..8][7] == 0xAB1C5ED5;
    SpelledWord(4, 2, 8, 10, 2, 15, 9, 8);
    SpelledWord(7, 1, 3, 7, 4, 4, 9, 1);
    SpelledWord(11, 5, 12, 0, 15, 11, 12, 15);
    SpelledWord(14, 9, 11, 5, 13, 11, 10, 5);
    SpelledWord(3, 9, 5, 6, 12, 2, 5, 11);
    SpelledWord(5, 9, 15, 1, 1, 1, 15, 1);
    SpelledWord(9, 2, 3, 15, 8, 2, 10, 4);
    SpelledWord(10, 11, 1, 12, 5, 14, 13, 5);
  }

  lemma AbcConstants8()
    ensures Constant(8, 0xD807AA98, 0xD807AA98) && Constant(9, 0x12835B01, 0x12835B01)
    ensures Constant(10, 0x243185BE, 0x243185BE) && Constant(11, 0x550C7DC3, 0x550C7DC3)
    ensures Constant(12, 0x72BE5D74, 0x72BE5D74) && Constant(13, 0x80DEB1FE, 0x80DEB1FE)
    ensures Constant(14, 0x9BDC06A7, 0x9BDC06A7) && Constant(15, 0xC19BF174, 0xC19BF174)
  {
    hide Packed, ToBits, Nibble, Hex8;
    Nibbles();
    Constants8();
    assert K[8..16] == K8;
    assert K[8] == K[8..16][0] == 0xD807AA98;
    assert K[9] == K[8..16][1] == 0x12835B01;
    assert K[10] == K[8..16][2] == 0x243185BE;
    assert K[11] == K[8..16][3] == 0x550C7DC3;
    assert K[12] == K[8..16][4] == 0x72BE5D74;
    assert K[13] == K[8..16][5] == 0x80DEB1FE;
    assert K[14] == K[8..16][6] == 0x9BDC06A7;
    assert K[15] == K[8..16][7] == 0xC19BF174;
    SpelledWord(13, 8, 0, 7, 10, 10, 9, 8);
    SpelledWord(1, 2, 8, 3, 5, 11, 0, 1);
    SpelledWord(2, 4, 3, 1, 8, 5, 11, 14);
    SpelledWord(5, 5, 0, 12, 7, 13, 12, 3);
    SpelledWord(7, 2, 11, 14, 5, 13, 7, 4);
    SpelledWord(8, 0, 13, 14, 11, 1, 15, 14);
    SpelledWord(9, 11, 13, 12, 0, 6, 10, 7);
    SpelledWord(12, 1, 9, 11, 15, 1, 7, 4);
  }

  lemma AbcConstants16()
    ensures Constant(16, 0xE49B69C1, 0xE49B69C1) && Constant(17, 0xEFBE4786, 0xEFBE4786)
    ensures Constant(18, 0x0FC19DC6, 0x0FC19DC6) && Constant(19, 0x240CA1CC, 0x240CA1CC)
    ensures Constant(20, 0x2DE92C6F, 0x2DE92C6F) && Constant(21, 0x4A7484AA, 0x4A7484AA)
    ensures Constant(22, 0x5CB0A9DC, 0x5CB0A9DC) && Constant(23, 0x76F988DA, 0x76F988DA)
  {
    hide Packed, ToBits, Nibble, Hex8;
    Nibbles();
    Constants16();
    assert K[16..24] == K16;
    assert K[16] == K[16..24][0] == 0xE49B69C1;
    assert K[17] == K[16..24][1] == 0xEFBE4786;
    assert K[18] == K[16..24][2] == 0x0FC19DC6;
    assert K[19] == K[16..24][3] == 0x240CA1CC;
    assert K[20] == K[16..24][4] == 0x2DE92C6F;
    assert K[21] == K[16..24][5] == 0x4A7484AA;
    assert K[22] == K[16..24][6] == 0x5CB0A9DC;
    assert K[23] == K[16..24][7] == 0x76F988DA;
    SpelledWord(14, 4, 9, 11, 6, 9, 12, 1);
    SpelledWord(14, 15, 11, 14, 4, 7, 8, 6);
    SpelledWord(0, 15, 12, 1, 9, 13, 12, 6);
    SpelledWord(2, 4, 0, 12, 10, 1, 12, 12);
    SpelledWord(2, 13, 14, 9, 2, 12, 6, 15);
    SpelledWord(4, 10, 7, 4, 8, 4, 10, 10);
    SpelledWord(5, 12, 11, 0, 10, 9, 13, 12);
    SpelledWord(7, 6, 15, 9, 8, 8, 13, 10);
  }

  lemma AbcConstants24()
    ensures Constant(24, 0x983E5152, 0x983E5152) && Constant(25, 0xA831C66D, 0xA831C66D)
    ensures Constant(26, 0xB00327C8, 0xB00327C8) && Constant(27, 0xBF597FC7, 0xBF597FC7)
    ensures Constant(28, 0xC6E00BF3, 0xC6E00BF3) && Constant(29, 0xD5A79147, 0xD5A79147)
    ensures Constant(30, 0x06CA6351, 0x06CA6351) && Constant(31, 0x14292967, 0x14292967)
  {
    hide Packed, ToBits, Nibble, Hex8;
    Nibbles();
    Constants24();
    assert K[24..32] == K24;
    assert K[24] == K[24..32][0] == 0x983E5152;
    assert K[25] == K[24..32][1] == 0xA831C66D;
    assert K[26] == K[24..32][2] == 0xB00327C8;
    assert K[27] == K[24..32][3] == 0xBF597FC7;
    assert K[28] == K[24..32][4] == 0xC6E00BF3;
    assert K[29] == K[24..32][5] == 0xD5A79147;
    assert K[30] == K[24..32][6] == 0x06CA6351;
    assert K[31] == K[24..32][7] == 0x14292967;
    SpelledWord(9, 8, 3, 14, 5, 1, 5, 2);
    SpelledWord(10, 8, 3, 1, 12, 6, 6, 13);
    SpelledWord(11, 0, 0, 3, 2, 7, 12, 8);
    SpelledWord(11, 15, 5, 9, 7, 15, 12, 7);
    SpelledWord(12, 6, 14, 0, 0, 11, 15, 3);
    SpelledWord(13, 5, 10, 7, 9, 1, 4, 7);
    SpelledWord(0, 6, 12, 10, 6, 3, 5, 1);
    SpelledWord(1, 4, 2, 9, 2, 9, 6, 7);
  }

  lemma AbcConstants32()
    ensures Constant(32, 0x27B70A85, 0x27B70A85) && Constant(33, 0x2E1B2138, 0x2E1B2138)
    ensures Constant(34, 0x4D2C6DFC, 0x4D2C6DFC) && Constant(35, 0x53380D13, 0x53380D13)
    ensures Constant(36, 0x650A7354, 0x650A7354) && Constant(37, 0x766A0ABB, 0x766A0ABB)
    ensures Constant(38, 0x81C2C92E, 0x81C2C92E) && Constant(39, 0x92722C85, 0x92722C85)
  {
    hide Packed, ToBits, Nibble, Hex8;
    Nibbles();
    Constants32();
    assert K[32..40] == K32;
    assert K[32] == K[32..40][0] == 0x27B70A85;
    assert K[33] == K[32..40][1] == 0x2E1B2138;
    assert K[34] == K[32..40][2] == 0x4D2C6DFC;
    assert K[35] == K[32..40][3] == 0x53380D13;
    assert K[36] == K[32..40][4] == 0x650A7354;
    assert K[37] == K[32..40][5] == 0x766A0ABB;
    assert K[38] == K[32..40][6] == 0x81C2C92E;
    assert K[39] == K[32..40][7] == 0x92722C85;
    SpelledWord(2, 7, 11, 7, 0, 10, 8, 5);
    SpelledWord(2, 14, 1, 11, 2, 1, 3, 8);
    SpelledWord(4, 13, 2, 12, 6, 13, 15, 12);
    SpelledWord(5, 3, 3, 8, 0, 13, 1, 3);
    SpelledWord(6, 5, 0, 10, 7, 3, 5, 4);
    SpelledWord(7, 6, 6, 10, 0, 10, 11, 11);
    SpelledWord(8, 1, 12, 2, 12, 9, 2, 14);
    SpelledWord(9, 2, 7, 2, 2, 12, 8, 5);
  }

  lemma AbcConstants40()
    ensures Constant(40, 0xA2BFE8A1, 0xA2BFE8A1) && Constant(41, 0xA81A664B, 0xA81A664B)
    ensures Constant(42, 0xC24B8B70, 0xC24B8B70) && Constant(43, 0xC76C51A3, 0xC76C51A3)
    ensures Constant(44, 0xD192E819, 0xD192E819) && Constant(45, 0xD6990624, 0xD6990624)
    ensures Constant(46, 0xF40E3585, 0xF40E3585) && Constant(47, 0x106AA070, 0x106AA070)
  {
    hide Packed, ToBits, Nibble, Hex8;
    Nibbles();
    Constants40();
    assert K[40..48] == K40;
    assert K[40] == K[40..48][0] == 0xA2BFE8A1;
    assert K[41] == K[40..48][1] == 0xA81A664B;
    assert K[42] == K[40..48][2] == 0xC24B8B70;
    assert K[43] == K[40..48][3] == 0xC76C51A3;
    assert K[44] == K[40..48][4] == 0xD192E819;
    assert K[45] == K[40..48][5] == 0xD6990624;
    assert K[46] == K[40..48][6] == 0xF40E3585;
    assert K[47] == K[40..48][7] == 0x106AA070;
    SpelledWord(10, 2, 11, 15, 14, 8, 10, 1);
    SpelledWord(10, 8, 1, 10, 6, 6, 4, 11);
    SpelledWord(12, 2, 4, 11, 8, 11, 7, 0);
    SpelledWord(12, 7, 6, 12, 5, 1, 10, 3);
    SpelledWord(13, 1, 9, 2, 14, 8, 1, 9);
    SpelledWord(13, 6, 9, 9, 0, 6, 2, 4);
    SpelledWord(15, 4, 0, 14, 3, 5, 8, 5);
    SpelledWord(1, 0, 6, 10, 10, 0, 7, 0);
  }

  lemma AbcConstants48()
    ensures Constant(48, 0x19A4C116, 0x19A4C116) && Constant(49, 0x1E376C08, 0x1E376C08)
    ensures Constant(50, 0x2748774C, 0x2748774C) && Constant(51, 0x34B0BCB5, 0x34B0BCB5)
    ensures Constant(52, 0x391C0CB3, 0x391C0CB3) && Constant(53, 0x4ED8AA4A, 0x4ED8AA4A)
    ensures Constant(54, 0x5B9CCA4F, 0x5B9CCA4F) && Constant(55, 0x682E6FF3, 0x682E6FF3)
  {
    hide Packed, ToBits, Nibble, Hex8;
    Nibbles();
    Constants48();
    assert K[48..56] == K48;
    assert K[48] == K[48..56][0] == 0x19A4C116;
    assert K[49] == K[48..56][1] == 0x1E376C08;
    assert K[50] == K[48..56][2] == 0x2748774C;
    assert K[51] == K[48..56][3] == 0x34B0BCB5;
    assert K[52] == K[48..56][4] == 0x391C0CB3;
    assert K[53] == K[48..56][5] == 0x4ED8AA4A;
    assert K[54] == K[48..56][6] == 0x5B9CCA4F;
    assert K[55] == K[48..56][7] == 0x682E6FF3;
    SpelledWord(1, 9, 10, 4, 12, 1, 1, 6);
    SpelledWord(1, 14, 3, 7, 6, 12, 0, 8);
    SpelledWord(2, 7, 4, 8, 7, 7, 4, 12);
    SpelledWord(3, 4, 11, 0, 11, 12, 11, 5);
    SpelledWord(3, 9, 1, 12, 0, 12, 11, 3);
    SpelledWord(4, 14, 13, 8, 10, 10, 4, 10);
    SpelledWord(5, 11, 9, 12, 12, 10, 4, 15);
    SpelledWord(6, 8, 2, 14, 6, 15, 15, 3);
  }

  lemma AbcConstants56()
    ensures Constant(56, 0x748F82EE, 0x748F82EE) && Constant(57, 0x78A5636F, 0x78A5636F)
    ensures Constant(58, 0x84C87814, 0x84C87814) && Constant(59, 0x8CC70208, 0x8CC70208)
    ensures Constant(60, 0x90BEFFFA, 0x90BEFFFA) && Constant(61, 0xA4506CEB, 0xA4506CEB)
    ensures Constant(62, 0xBEF9A3F7, 0xBEF9A3F7) && Constant(63, 0xC67178F2, 0xC67178F2)
  {
    hide Packed, ToBits, Nibble, Hex8;
    Nibbles();
    Constants56();
    assert K[56..64] == K56;
    assert K[56] == K[56..64][0] == 0x748F82EE;
    assert K[57] == K[56..64][1] == 0x78A5636F;
    assert K[58] == K[56..64][2] == 0x84C87814;
    assert K[59] == K[56..64][3] == 0x8CC70208;
    assert K[60] == K[56..64][4] == 0x90BEFFFA;
    assert K[61] == K[56..64][5] == 0xA4506CEB;
    assert K[62] == K[56..64][6] == 0xBEF9A3F7;
    assert K[63] == K[56..64][7] == 0xC67178F2;
    SpelledWord(7, 4, 8, 15, 8, 2, 14, 14);
    SpelledWord(7, 8, 10, 5, 6, 3, 6, 15);
    SpelledWord(8, 4, 12, 8, 7, 8, 1, 4);
    SpelledWord(8, 12, 12, 7, 0, 2, 0, 8);
    SpelledWord(9, 0, 11, 14, 15, 15, 15, 10);
    SpelledWord(10, 4, 5, 0, 6, 12, 14, 11);
    SpelledWord(11, 14, 15, 9, 10, 3, 15, 7);
    SpelledWord(12, 6, 7, 1, 7, 8, 15, 2);
  }

  // ----- the rounds

  predicate After(block: seq<byte>, t: nat, m: Machine8) {
    hide Packed, Rounds, Initial;
    |block| == 64 && t <= 64 && Packed8(Rounds(Load(Initial()), block, t)) == m
  }

  lemma AbcInitial(block: seq<byte>)
    requires |block| == 64
    ensures Packed8(Load(Initial())) == Machine8(0x6A09E667, 0xBB67AE85, 0x3C6EF372, 0xA54FF53A,
                                                 0x510E527F, 0x9B05688C, 0x1F83D9AB, 0x5BE0CD19)
    ensures After(block, 0, Machine8(0x6A09E667, 0xBB67AE85, 0x3C6EF372, 0xA54FF53A,
                                     0x510E527F, 0x9B05688C, 0x1F83D9AB, 0x5BE0CD19))
  {
    hide Packed, ToBits, Nibble, Hex8;
    Nibbles();
    InitialWords();
    SpelledWord(6, 10, 0, 9, 14, 6, 6, 7);
    SpelledWord(11, 11, 6, 7, 10, 14, 8, 5);
    SpelledWord(3, 12, 6, 14, 15, 3, 7, 2);
    SpelledWord(10, 5, 4, 15, 15, 5, 3, 10);
    SpelledWord(5, 1, 0, 14, 5, 2, 7, 15);
    SpelledWord(9, 11, 0, 5, 6, 8, 8, 12);
    SpelledWord(1, 15, 8, 3, 13, 9, 10, 11);
    SpelledWord(5, 11, 14, 0, 12, 13, 1, 9);
  }

  lemma NextRound(block: seq<byte>, t: nat, m: Machine8, n: nat, k: bv32, w: bv32)
    requires t < 64 && After(block, t, m) && Constant(t, n, k) && Word(block, t, w)
    ensures After(block, t + 1, MachineRound(m, k, w))
  {
    hide Packed, ToBits, W, Round, MachineRound, Initial;
    PackedRound(Rounds(Load(Initial()), block, t), ToBits(K[t], 32), W(block, t));
  }

  lemma Abc0(block: seq<byte>)
    requires block == AbcBlock() && After(block, 0, Machine8(0x6A09E667, 0xBB67AE85, 0x3C6EF372, 0xA54FF53A,
                                                             0x510E527F, 0x9B05688C, 0x1F83D9AB, 0x5BE0CD19))
    ensures After(block, 8, Machine8(0x85A07B5F, 0xE5030380, 0x2B4209F5, 0x04409A6A,
                                     0x0C657A79, 0x9B27A401, 0x714260AD, 0x43ADA245))
  {
    hide After, Constant, Word, MachineRound, AbcBlock;
    Schedule0(block);
    AbcConstants0();
    Rounds0();
    Rounds4();
    var m := Machine8(0x6A09E667, 0xBB67AE85, 0x3C6EF372, 0xA54FF53A, 0x510E527F, 0x9B05688C, 0x1F83D9AB, 0x5BE0CD19);
    NextRound(block, 0, m, 0x428A2F98, 0x428A2F98, 0x61626380);
    m := MachineRound(m, 0x428A2F98, 0x61626380);
    NextRound(block, 1, m, 0x71374491, 0x71374491, 0x00000000);
    m := MachineRound(m, 0x71374491, 0x00000000);
    NextRound(block, 2, m, 0xB5C0FBCF, 0xB5C0FBCF, 0x00000000);
    m := MachineRound(m, 0xB5C0FBCF, 0x00000000);
    NextRound(block, 3, m, 0xE9B5DBA5, 0xE9B5DBA5, 0x00000000);
    m := MachineRound(m, 0xE9B5DBA5, 0x00000000);
    NextRound(block, 4, m, 0x3956C25B, 0x3956C25B, 0x00000000);
    m := MachineRound(m, 0x3956C25B, 0x00000000);
    NextRound(block, 5, m, 0x59F111F1, 0x59F111F1, 0x00000000);
    m := MachineRound(m, 0x59F111F1, 0x00000000);
    NextRound(block, 6, m, 0x923F82A4, 0x923F82A4, 0x00000000);
    m := MachineRound(m, 0x923F82A4, 0x00000000);
    NextRound(block, 7, m, 0xAB1C5ED5, 0xAB1C5ED5, 0x00000000);
  }

  lemma Abc8(block: seq<byte>)
    requires block == AbcBlock() && After(block, 8, Machine8(0x85A07B5F, 0xE5030380, 0x2B4209F5, 0x04409A6A,
                                                             0x0C657A79, 0x9B27A401, 0x714260AD, 0x43ADA245))
    ensures After(block, 16, Machine8(0xB0FA238E, 0xC0645FDE, 0xD932EB16, 0x87912990,
                                      0x07590DCD, 0x0B92F20C, 0x745A48DE, 0x1E578218))
  {
    hide After, Constant, Word, MachineRound, AbcBlock;
    Schedule8(block);
    AbcConstants8();
    Rounds8();
    Rounds12();
    var m := Machine8(0x85A07B5F, 0xE5030380, 0x2B4209F5, 0x04409A6A, 0x0C657A79, 0x9B27A401, 0x714260AD, 0x43ADA245);
    NextRound(block, 8, m, 0xD807AA98, 0xD807AA98, 0x00000000);
    m := MachineRound(m, 0xD807AA98, 0x00000000);
    NextRound(block, 9, m, 0x12835B01, 0x12835B01, 0x00000000);
    m := MachineRound(m, 0x12835B01, 0x00000000);
    NextRound(block, 10, m, 0x243185BE, 0x243185BE, 0x00000000);
    m := MachineRound(m, 0x243185BE, 0x00000000);
    NextRound(block, 11, m, 0x550C7DC3, 0x550C7DC3, 0x00000000);
    m := MachineRound(m, 0x550C7DC3, 0x00000000);
    NextRound(block, 12, m, 0x72BE5D74, 0x72BE5D74, 0x00000000);
    m := MachineRound(m, 0x72BE5D74, 0x00000000);
    NextRound(block, 13, m, 0x80DEB1FE, 0x80DEB1FE, 0x00000000);
    m := MachineRound(m, 0x80DEB1FE, 0x00000000);
    NextRound(block, 14, m, 0x9BDC06A7, 0x9BDC06A7, 0x00000000);
    m := MachineRound(m, 0x9BDC06A7, 0x00000000);
    NextRound(block, 15, m, 0xC19BF174, 0xC19BF174, 0x00000018);
  }

  lemma Abc16(block: seq<byte>)
    requires block == AbcBlock() && After(block, 16, Machine8(0xB0FA238E, 0xC0645FDE, 0xD932EB16, 0x87912990,
                                                              0x07590DCD, 0x0B92F20C, 0x745A48DE, 0x1E578218))
    ensures After(block, 24, Machine8(0xC5D53D8D, 0xA7A3623F, 0xC2606D6D, 0x9DC68B63,
                                      0xAA47C347, 0x49F5114A, 0xE1257970, 0x8ADA8930))
  {
    hide After, Constant, Word, MachineRound, AbcBlock;
    Schedule16(block);
    AbcConstants16();
    Rounds16();
    Rounds20();
    var m := Machine8(0xB0FA238E, 0xC0645FDE, 0xD932EB16, 0x87912990, 0x07590DCD, 0x0B92F20C, 0x745A48DE, 0x1E578218);
    NextRound(block, 16, m, 0xE49B69C1, 0xE49B69C1, 0x61626380);
    m := MachineRound(m, 0xE49B69C1, 0x61626380);
    NextRound(block, 17, m, 0xEFBE4786, 0xEFBE4786, 0x000F0000);
    m := MachineRound(m, 0xEFBE4786, 0x000F0000);
    NextRound(block, 18, m, 0x0FC19DC6, 0x0FC19DC6, 0x7DA86405);
    m := MachineRound(m, 0x0FC19DC6, 0x7DA86405);
    NextRound(block, 19, m, 0x240CA1CC, 0x240CA1CC, 0x600003C6);
    m := MachineRound(m, 0x240CA1CC, 0x600003C6);
    NextRound(block, 20, m, 0x2DE92C6F, 0x2DE92C6F, 0x3E9D7B78);
    m := MachineRound(m, 0x2DE92C6F, 0x3E9D7B78);
    NextRound(block, 21, m, 0x4A7484AA, 0x4A7484AA, 0x0183FC00);
    m := MachineRound(m, 0x4A7484AA, 0x0183FC00);
    NextRound(block, 22, m, 0x5CB0A9DC, 0x5CB0A9DC, 0x12DCBFDB);
    m := MachineRound(m, 0x5CB0A9DC, 0x12DCBFDB);
    NextRound(block, 23, m, 0x76F988DA, 0x76F988DA, 0xE2E2C38E);
  }

  lemma Abc24(block: seq<byte>)
    requires block == AbcBlock() && After(block, 24, Machine8(0xC5D53D8D, 0xA7A3623F, 0xC2606D6D, 0x9DC68B63,
                                                              0xAA47C347, 0x49F5114A, 0xE1257970, 0x8ADA8930))
    ensures After(block, 32, Machine8(0x73B33BF5, 0xEA992A22, 0xA0060B30, 0x363482C9,
                                      0xBA591112, 0x0109AB3A, 0xADE79437, 0x6112A3B7))
  {
    hide After, Constant, Word, MachineRound, AbcBlock;
    Schedule24(block);
    AbcConstants24();
    Rounds24();
    Rounds28();
    var m := Machine8(0xC5D53D8D, 0xA7A3623F, 0xC2606D6D, 0x9DC68B63, 0xAA47C347, 0x49F5114A, 0xE1257970, 0x8ADA8930);
    NextRound(block, 24, m, 0x983E5152, 0x983E5152, 0xC8215C1A);
    m := MachineRound(m, 0x983E5152, 0xC8215C1A);
    NextRound(block, 25, m, 0xA831C66D, 0xA831C66D, 0xB73679A2);
    m := MachineRound(m, 0xA831C66D, 0xB73679A2);
    NextRound(block, 26, m, 0xB00327C8, 0xB00327C8, 0xE5BC3909);
    m := MachineRound(m, 0xB00327C8, 0xE5BC3909);
    NextRound(block, 27, m, 0xBF597FC7, 0xBF597FC7, 0x32663C5B);
    m := MachineRound(m, 0xBF597FC7, 0x32663C5B);
    NextRound(block, 28, m, 0xC6E00BF3, 0xC6E00BF3, 0x9D209D67);
    m := MachineRound(m, 0xC6E00BF3, 0x9D209D67);
    NextRound(block, 29, m, 0xD5A79147, 0xD5A79147, 0xEC8726CB);
    m := MachineRound(m, 0xD5A79147, 0xEC8726CB);
    NextRound(block, 30, m, 0x06CA6351, 0x06CA6351, 0x702138A4);
    m := MachineRound(m, 0x06CA6351, 0x702138A4);
    NextRound(block, 31, m, 0x14292967, 0x14292967, 0xD3B7973B);
  }

  lemma Abc32(block: seq<byte>)
    requires block == AbcBlock() && After(block, 32, Machine8(0x73B33BF5, 0xEA992A22, 0xA0060B30, 0x363482C9,
                                                              0xBA591112, 0x0109AB3A, 0xADE79437, 0x6112A3B7))
    ensures After(block, 40, Machine8(0x79EA687A, 0x6DC57A8A, 0x34DF1604, 0x41A65CB1,
                                      0x1EFBC0A0, 0xF0781BC8, 0xA507A53D, 0x0772A26B))
  {
    hide After, Constant, Word, MachineRound, AbcBlock;
    Schedule32(block);
    AbcConstants32();
    Rounds32();
    Rounds36();
    var m := Machine8(0x73B33BF5, 0xEA992A22, 0xA0060B30, 0x363482C9, 0xBA591112, 0x0109AB3A, 0xADE79437, 0x6112A3B7);
    NextRound(block, 32, m, 0x27B70A85, 0x27B70A85, 0x93F5997F);
    m := MachineRound(m, 0x27B70A85, 0x93F5997F);
    NextRound(block, 33, m, 0x2E1B2138, 0x2E1B2138, 0x3B68BA73);
    m := MachineRound(m, 0x2E1B2138, 0x3B68BA73);
    NextRound(block, 34, m, 0x4D2C6DFC, 0x4D2C6DFC, 0xAFF4FFC1);
    m := MachineRound(m, 0x4D2C6DFC, 0xAFF4FFC1);
    NextRound(block, 35, m, 0x53380D13, 0x53380D13, 0xF10A5C62);
    m := MachineRound(m, 0x53380D13, 0xF10A5C62);
    NextRound(block, 36, m, 0x650A7354, 0x650A7354, 0x0A8B3996);
    m := MachineRound(m, 0x650A7354, 0x0A8B3996);
    NextRound(block, 37, m, 0x766A0ABB, 0x766A0ABB, 0x72AF830A);
    m := MachineRound(m, 0x766A0ABB, 0x72AF830A);
    NextRound(block, 38, m, 0x81C2C92E, 0x81C2C92E, 0x9409E33E);
    m := MachineRound(m, 0x81C2C92E, 0x9409E33E);
    NextRound(block, 39, m, 0x92722C85, 0x92722C85, 0x24641522);
  }

  lemma Abc40(block: seq<byte>)
    requires block == AbcBlock() && After(block, 40, Machine8(0x79EA687A, 0x6DC57A8A, 0x34DF1604, 0x41A65CB1,
                                                              0x1EFBC0A0, 0xF0781BC8, 0xA507A53D, 0x0772A26B))
    ensures After(block, 48, Machine8(0x4172328D, 0xA14C14B0, 0x72AB4B91, 0x26628815,
                                      0xFECF0BC6, 0xD57B94A9, 0xB7755DA1, 0xA80F11F0))
  {
    hide After, Constant, Word, MachineRound, AbcBlock;
    Schedule40(block);
    AbcConstants40();
    Rounds40();
    Rounds44();
    var m := Machine8(0x79EA687A, 0x6DC57A8A, 0x34DF1604, 0x41A65CB1, 0x1EFBC0A0, 0xF0781BC8, 0xA507A53D, 0x0772A26B);
    NextRound(block, 40, m, 0xA2BFE8A1, 0xA2BFE8A1, 0x9F47BF94);
    m := MachineRound(m, 0xA2BFE8A1, 0x9F47BF94);
    NextRound(block, 41, m, 0xA81A664B, 0xA81A664B, 0xF0A64F5A);
    m := MachineRound(m, 0xA81A664B, 0xF0A64F5A);
    NextRound(block, 42, m, 0xC24B8B70, 0xC24B8B70, 0x3E246A79);
    m := MachineRound(m, 0xC24B8B70, 0x3E246A79);
    NextRound(block, 43, m, 0xC76C51A3, 0xC76C51A3, 0x27333BA3);
    m := MachineRound(m, 0xC76C51A3, 0x27333BA3);
    NextRound(block, 44, m, 0xD192E819, 0xD192E819, 0x0C4763F2);
    m := MachineRound(m, 0xD192E819, 0x0C4763F2);
    NextRound(block, 45, m, 0xD6990624, 0xD6990624, 0x840ABF27);
    m := MachineRound(m, 0xD6990624, 0x840ABF27);
    NextRound(block, 46, m, 0xF40E3585, 0xF40E3585, 0x7A290D5D);
    m := MachineRound(m, 0xF40E3585, 0x7A290D5D);
    NextRound(block, 47, m, 0x106AA070, 0x106AA070, 0x065C43DA);
  }

  lemma Abc48(block: seq<byte>)
    requires block == AbcBlock() && After(block, 48, Machine8(0x4172328D, 0xA14C14B0, 0x72AB4B91, 0x26628815,
                                                              0xFECF0BC6, 0xD57B94A9, 0xB7755DA1, 0xA80F11F0))
    ensures After(block, 56, Machine8(0x38CC9913, 0x3EC45CDB, 0xF5702FDB, 0x101FD28F,
                                      0x54CB266B, 0xE50E1B4F, 0x9F4787C3, 0x529E7D00))
  {
    hide After, Constant, Word, MachineRound, AbcBlock;
    Schedule48(block);
    AbcConstants48();
    Rounds48();
    Rounds52();
    var m := Machine8(0x4172328D, 0xA14C14B0, 0x72AB4B91, 0x26628815, 0xFECF0BC6, 0xD57B94A9, 0xB7755DA1, 0xA80F11F0);
    NextRound(block, 48, m, 0x19A4C116, 0x19A4C116, 0xFB3E89CB);
    m := MachineRound(m, 0x19A4C116, 0xFB3E89CB);
    NextRound(block, 49, m, 0x1E376C08, 0x1E376C08, 0xCC7617DB);
    m := MachineRound(m, 0x1E376C08, 0xCC7617DB);
    NextRound(block, 50, m, 0x2748774C, 0x2748774C, 0xB9E66C34);
    m := MachineRound(m, 0x2748774C, 0xB9E66C34);
    NextRound(block, 51, m, 0x34B0BCB5, 0x34B0BCB5, 0xA9993667);
    m := MachineRound(m, 0x34B0BCB5, 0xA9993667);
    NextRound(block, 52, m, 0x391C0CB3, 0x391C0CB3, 0x84BADEDD);
    m := MachineRound(m, 0x391C0CB3, 0x84BADEDD);
    NextRound(block, 53, m, 0x4ED8AA4A, 0x4ED8AA4A, 0xC21462BC);
    m := MachineRound(m, 0x4ED8AA4A, 0xC21462BC);
    NextRound(block, 54, m, 0x5B9CCA4F, 0x5B9CCA4F, 0x1487472C);
    m := MachineRound(m, 0x5B9CCA4F, 0x1487472C);
    NextRound(block, 55, m, 0x682E6FF3, 0x682E6FF3, 0xB20F7A99);
  }

  lemma Abc56(block: seq<byte>)
    requires block == AbcBlock() && After(block, 56, Machine8(0x38CC9913, 0x3EC45CDB, 0xF5702FDB, 0x101FD28F,
                                                              0x54CB266B, 0xE50E1B4F, 0x9F4787C3, 0x529E7D00))
    ensures After(block, 64, Machine8(0x506E3058, 0xD39A2165, 0x04D24D6C, 0xB85E2CE9,
                                      0x5EF50F24, 0xFB121210, 0x948D25B6, 0x961F4894))
  {
    hide After, Constant, Word, MachineRound, AbcBlock;
    Schedule56(block);
    AbcConstants56();
    Rounds56();
    Rounds60();
    var m := Machine8(0x38CC9913, 0x3EC45CDB, 0xF5702FDB, 0x101FD28F, 0x54CB266B, 0xE50E1B4F, 0x9F4787C3, 0x529E7D00);
    NextRound(block, 56, m, 0x748F82EE, 0x748F82EE, 0xEF57B9CD);
    m := MachineRound(m, 0x748F82EE, 0xEF57B9CD);
    NextRound(block, 57, m, 0x78A5636F, 0x78A5636F, 0xEBE6B238);
    m := MachineRound(m, 0x78A5636F, 0xEBE6B238);
    NextRound(block, 58, m, 0x84C87814, 0x84C87814, 0x9FE3095E);
    m := MachineRound(m, 0x84C87814, 0x9FE3095E);
    NextRound(block, 59, m, 0x8CC70208, 0x8CC70208, 0x78BC8D4B);
    m := MachineRound(m, 0x8CC70208, 0x78BC8D4B);
    NextRound(block, 60, m, 0x90BEFFFA, 0x90BEFFFA, 0xA43FCF15);
    m := MachineRound(m, 0x90BEFFFA, 0xA43FCF15);
    NextRound(block, 61, m, 0xA4506CEB, 0xA4506CEB, 0x668B2FF8);
    m := MachineRound(m, 0xA4506CEB, 0x668B2FF8);
    NextRound(block, 62, m, 0xBEF9A3F7, 0xBEF9A3F7, 0xEEABA2CC);
    m := MachineRound(m, 0xBEF9A3F7, 0xEEABA2CC);
    NextRound(block, 63, m, 0xC67178F2, 0xC67178F2, 0x12B1EDEB);
  }

  lemma AbcRounds(block: seq<byte>)
    requires block == AbcBlock()
    ensures After(block, 64, Machine8(0x506E3058, 0xD39A2165, 0x04D24D6C, 0xB85E2CE9,
                                      0x5EF50F24, 0xFB121210, 0x948D25B6, 0x961F4894))
  {
    hide After, AbcBlock;
    AbcInitial(block);
    Abc0(block);
    Abc8(block);
    Abc16(block);
    Abc24(block);
    Abc32(block);
    Abc40(block);
    Abc48(block);
    Abc56(block);
  }

  // ----- the digest

  /** A word is known by its machine word. */
  lemma Recovered(x: Sha256.Word, b: seq<byte>)
    requires |b| == 4 && Packed(x) == Packed(Be32(b))
    ensures WordBytes(x) == b
  {
    hide Packed, Be32, WordBytes;
    PackedInjective(x, Be32(b));
    WordBytesOf(b);
  }

  predicate Result(block: seq<byte>, i: nat, w: bv32) {
    hide Packed, Compress, Initial;
    |block| == 64 && i < 8 && Packed(Compress(Initial(), block)[i]) == w
  }

  /** The final additions, on machine words. */
  lemma Summed(h: seq<Word>, block: seq<byte>, m: Machine8, n: Machine8)
    requires |h| == 8 && |block| == 64 && Packed8(Load(h)) == m && Packed8(Rounds(Load(h), block, 64)) == n
    ensures Packed(Compress(h, block)[0]) == Plus(m.a, n.a)
    ensures Packed(Compress(h, block)[1]) == Plus(m.b, n.b)
    ensures Packed(Compress(h, block)[2]) == Plus(m.c, n.c)
    ensures Packed(Compress(h, block)[3]) == Plus(m.d, n.d)
    ensures Packed(Compress(h, block)[4]) == Plus(m.e, n.e)
    ensures Packed(Compress(h, block)[5]) == Plus(m.f, n.f)
    ensures Packed(Compress(h, block)[6]) == Plus(m.g, n.g)
    ensures Packed(Compress(h, block)[7]) == Plus(m.h, n.h)
  {
    hide Packed, Plus, Rounds, Add;
    var r := Rounds(Load(h), block, 64);
    PackedAdd(h[0], r.a);
    PackedAdd(h[1], r.b);
    PackedAdd(h[2], r.c);
    PackedAdd(h[3], r.d);
    PackedAdd(h[4], r.e);
    PackedAdd(h[5], r.f);
    PackedAdd(h[6], r.g);
    PackedAdd(h[7], r.h);
  }

  lemma AbcCompressed(block: seq<byte>)
    requires block == AbcBlock()
    ensures Result(block, 0, 0xBA7816BF)
    ensures Result(block, 1, 0x8F01CFEA)
    ensures Result(block, 2, 0x414140DE)
    ensures Result(block, 3, 0x5DAE2223)
    ensures Result(block, 4, 0xB00361A3)
    ensures Result(block, 5, 0x96177A9C)
    ensures Result(block, 6, 0xB410FF61)
    ensures Result(block, 7, 0xF20015AD)
  {
    hide Packed8, Packed, Plus, AbcBlock, Initial, Rounds, Load, Compress;
    AbcRounds(block);
    AbcInitial(block);
    Sums();
    Summed(Initial(), block, Machine8(0x6A09E667, 0xBB67AE85, 0x3C6EF372, 0xA54FF53A,
                                      0x510E527F, 0x9B05688C, 0x1F83D9AB, 0x5BE0CD19),
           Machine8(0x506E3058, 0xD39A2165, 0x04D24D6C, 0xB85E2CE9, 0x5EF50F24, 0xFB121210, 0x948D25B6, 0x961F4894));
  }

  predicate Spells(b: seq<byte>, w: bv32) {
    hide Packed, Be32;
    |b| == 4 && Packed(Be32(b)) == w
  }

  lemma ResultWord(b: seq<byte>, v: nat, w: bv32)
    requires |b| == 4 && v == Joined(b) && Packed(ToBits(v, 32)) == w
    ensures Spells(b, w)
  {
    hide Packed, ToBits, Be32, Joined;
    Be32Word(b, v);
  }

  lemma AbcResult0()
    ensures Spells([0xBA, 0x78, 0x16, 0xBF], 0xBA7816BF)
    ensures Spells([0x8F, 0x01, 0xCF, 0xEA], 0x8F01CFEA)
    ensures Spells([0x41, 0x41, 0x40, 0xDE], 0x414140DE)
    ensures Spells([0x5D, 0xAE, 0x22, 0x23], 0x5DAE2223)
  {
    hide Packed, ToBits, Spells, Nibble, Hex8;
    Nibbles();
    ResultWords();
    SpelledWord(11, 10, 7, 8, 1, 6, 11, 15);
    ResultWord([0xBA, 0x78, 0x16, 0xBF], 0xBA7816BF, 0xBA7816BF);
    SpelledWord(8, 15, 0, 1, 12, 15, 14, 10);
    ResultWord([0x8F, 0x01, 0xCF, 0xEA], 0x8F01CFEA, 0x8F01CFEA);
    SpelledWord(4, 1, 4, 1, 4, 0, 13, 14);
    ResultWord([0x41, 0x41, 0x40, 0xDE], 0x414140DE, 0x414140DE);
    SpelledWord(5, 13, 10, 14, 2, 2, 2, 3);
    ResultWord([0x5D, 0xAE, 0x22, 0x23], 0x5DAE2223, 0x5DAE2223);
  }

  lemma AbcResult4()
    ensures Spells([0xB0, 0x03, 0x61, 0xA3], 0xB00361A3)
    ensures Spells([0x96, 0x17, 0x7A, 0x9C], 0x96177A9C)
    ensures Spells([0xB4, 0x10, 0xFF, 0x61], 0xB410FF61)
    ensures Spells([0xF2, 0x00, 0x15, 0xAD], 0xF20015AD)
  {
    hide Packed, ToBits, Spells, Nibble, Hex8;
    Nibbles();
    ResultWords();
    SpelledWord(11, 0, 0, 3, 6, 1, 10, 3);
    ResultWord([0xB0, 0x03, 0x61, 0xA3], 0xB00361A3, 0xB00361A3);
    SpelledWord(9, 6, 1, 7, 7, 10, 9, 12);
    ResultWord([0x96, 0x17, 0x7A, 0x9C], 0x96177A9C, 0x96177A9C);
    SpelledWord(11, 4, 1, 0, 15, 15, 6, 1);
    ResultWord([0xB4, 0x10, 0xFF, 0x61], 0xB410FF61, 0xB410FF61);
    SpelledWord(15, 2, 0, 0, 1, 5, 10, 13);
    ResultWord([0xF2, 0x00, 0x15, 0xAD], 0xF20015AD, 0xF20015AD);
  }

  const ABC_DIGEST: seq<byte> := [
    0xBA, 0x78, 0x16, 0xBF, 0x8F, 0x01, 0xCF, 0xEA,
    0x41, 0x41, 0x40, 0xDE, 0x5D, 0xAE, 0x22, 0x23,
    0xB0, 0x03, 0x61, 0xA3, 0x96, 0x17, 0x7A, 0x9C,
    0xB4, 0x10, 0xFF, 0x61, 0xF2, 0x00, 0x15, 0xAD]

  /** FIPS 180-4 gives this digest for the message "abc". */
  lemma DigestOfAbc()
    ensures Digest(ABC) == ABC_DIGEST
  {
    var block := Pad(ABC);
    AbcPadded();
    DigestOfBlock(block);
  }

  lemma ResultBytes(block: seq<byte>, i: nat, b: seq<byte>, w: bv32)
    requires Result(block, i, w) && Spells(b, w)
    ensures WordBytes(Compress(Initial(), block)[i]) == b
  {
    hide Packed, Compress, Initial, Be32, WordBytes;
    Recovered(Compress(Initial(), block)[i], b);
  }

  lemma DigestOfBlock(block: seq<byte>)
    requires block == AbcBlock()
    ensures |block| == 64 && HashBytes(Fold(block)) == ABC_DIGEST
  {
    hide Result, Spells, Compress, WordBytes, Initial, AbcBlock, HashBytes, Fold;
    AbcCompressed(block);
    AbcResult0();
    AbcResult4();
    OneBlock(block);
    ResultBytes(block, 0, [0xBA, 0x78, 0x16, 0xBF], 0xBA7816BF);
    ResultBytes(block, 1, [0x8F, 0x01, 0xCF, 0xEA], 0x8F01CFEA);
    ResultBytes(block, 2, [0x41, 0x41, 0x40, 0xDE], 0x414140DE);
    ResultBytes(block, 3, [0x5D, 0xAE, 0x22, 0x23], 0x5DAE2223);
    ResultBytes(block, 4, [0xB0, 0x03, 0x61, 0xA3], 0xB00361A3);
    ResultBytes(block, 5, [0x96, 0x17, 0x7A, 0x9C], 0x96177A9C);
    ResultBytes(block, 6, [0xB4, 0x10, 0xFF, 0x61], 0xB410FF61);
    ResultBytes(block, 7, [0xF2, 0x00, 0x15, 0xAD], 0xF20015AD);
    EightWords(Compress(Initial(), block));
    DigestJoined();
  }

  lemma DigestJoined()
    ensures [0xBA, 0x78, 0x16, 0xBF] + [0x8F, 0x01, 0xCF, 0xEA] + [0x41, 0x41, 0x40, 0xDE] + [0x5D, 0xAE, 0x22, 0x23]
          + [0xB0, 0x03, 0x61, 0xA3] + [0x96, 0x17, 0x7A, 0x9C] + [0xB4, 0x10, 0xFF, 0x61] + [0xF2, 0x00, 0x15, 0xAD]
         == ABC_DIGEST
  {
  }

  lemma OneBlock(block: seq<byte>)
    requires |block| == 64
    ensures Fold(block) == Compress(Initial(), block)
  {
    hide Compress, Initial;
    assert block[..0] == [] && block[0..] == block;
    assert Fold([]) == Initial();
  }

  lemma OneMoreWord(h: seq<Sha256.Word>, n: nat)
    requires 0 < n <= |h|
    ensures HashBytes(h[..n]) == HashBytes(h[..n - 1]) + WordBytes(h[n - 1])
  {
    hide WordBytes;
    assert h[..n][..n - 1] == h[..n - 1];
  }

  lemma EightWords(h: seq<Sha256.Word>)
    requires |h| == 8
    ensures HashBytes(h) == WordBytes(h[0]) + WordBytes(h[1]) + WordBytes(h[2]) + WordBytes(h[3])
                          + WordBytes(h[4]) + WordBytes(h[5]) + WordBytes(h[6]) + WordBytes(h[7])
  {
    hide WordBytes, HashBytes;
    NoWords();
    assert h[..0] == [] && h[..8] == h;
    OneMoreWord(h, 1);
    OneMoreWord(h, 2);
    OneMoreWord(h, 3);
    OneMoreWord(h, 4);
    OneMoreWord(h, 5);
    OneMoreWord(h, 6);
    OneMoreWord(h, 7);
    OneMoreWord(h, 8);
    assert [] + WordBytes(h[0]) == WordBytes(h[0]);
  }

  lemma NoWords()
    ensures HashBytes([]) == []
  {
  }
}
