/** SHA-256 on machine words, and what it makes of the message "abc". */
module Sha256Machine {
  import opened WordFacts

  function Rotated(x: bv32, n: bv6): bv32
    requires n < 32
  {
    (x >> n) | (x << (32 - n))
  }

  function Dropped(x: bv32, n: bv6): bv32
    requires n < 32
  {
    x >> n
  }

  // ----- rotations and shifts add up

  lemma Rotate1(x: bv32)
    ensures Turn(x) == Rotated(x, 1)
  {
  }

  lemma Rotate2(x: bv32)
    ensures Rotated(Rotated(x, 1), 1) == Rotated(x, 2)
  {
  }

  lemma Rotate4(x: bv32)
    ensures Rotated(Rotated(x, 2), 2) == Rotated(x, 4)
  {
  }

  lemma Rotate6(x: bv32)
    ensures Rotated(Rotated(x, 4), 2) == Rotated(x, 6)
  {
  }

  lemma Rotate7(x: bv32)
    ensures Rotated(Rotated(x, 6), 1) == Rotated(x, 7)
  {
  }

  lemma Rotate11(x: bv32)
    ensures Rotated(Rotated(x, 7), 4) == Rotated(x, 11)
  {
  }

  lemma Rotate13(x: bv32)
    ensures Rotated(Rotated(x, 11), 2) == Rotated(x, 13)
  {
  }

  lemma Rotate17(x: bv32)
    ensures Rotated(Rotated(x, 13), 4) == Rotated(x, 17)
  {
  }

  lemma Rotate18(x: bv32)
    ensures Rotated(Rotated(x, 17), 1) == Rotated(x, 18)
  {
  }

  lemma Rotate19(x: bv32)
    ensures Rotated(Rotated(x, 18), 1) == Rotated(x, 19)
  {
  }

  lemma Rotate22(x: bv32)
    ensures Rotated(Rotated(x, 18), 4) == Rotated(x, 22)
  {
  }

  lemma Rotate25(x: bv32)
    ensures Rotated(Rotated(x, 18), 7) == Rotated(x, 25)
  {
  }

  lemma Drop1(x: bv32)
    ensures Halved(x) == Dropped(x, 1)
  {
  }

  lemma Drop2(x: bv32)
    ensures Dropped(Dropped(x, 1), 1) == Dropped(x, 2)
  {
  }

  lemma Drop3(x: bv32)
    ensures Dropped(Dropped(x, 2), 1) == Dropped(x, 3)
  {
  }

  lemma Drop5(x: bv32)
    ensures Dropped(Dropped(x, 3), 2) == Dropped(x, 5)
  {
  }

  lemma Drop10(x: bv32)
    ensures Dropped(Dropped(x, 5), 5) == Dropped(x, 10)
  {
  }

  // ----- the functions of the standard

  function MachineCh(x: bv32, y: bv32, z: bv32): bv32 {
    ExclusiveOr(Conjunction(x, y), Conjunction(Complement(x), z))
  }

  function MachineMaj(x: bv32, y: bv32, z: bv32): bv32 {
    ExclusiveOr(ExclusiveOr(Conjunction(x, y), Conjunction(x, z)), Conjunction(y, z))
  }

  function MachineSum0(x: bv32): bv32 { ExclusiveOr(ExclusiveOr(Rotated(x, 2), Rotated(x, 13)), Rotated(x, 22)) }
  function MachineSum1(x: bv32): bv32 { ExclusiveOr(ExclusiveOr(Rotated(x, 6), Rotated(x, 11)), Rotated(x, 25)) }
  function MachineSigma0(x: bv32): bv32 { ExclusiveOr(ExclusiveOr(Rotated(x, 7), Rotated(x, 18)), Dropped(x, 3)) }
  function MachineSigma1(x: bv32): bv32 { ExclusiveOr(ExclusiveOr(Rotated(x, 17), Rotated(x, 19)), Dropped(x, 10)) }

  datatype Machine8 = Machine8(a: bv32, b: bv32, c: bv32, d: bv32, e: bv32, f: bv32, g: bv32, h: bv32)

  function MachineRound(r: Machine8, k: bv32, w: bv32): Machine8 {
    var t1 := Plus(Plus(Plus(Plus(r.h, MachineSum1(r.e)), MachineCh(r.e, r.f, r.g)), k), w);
    var t2 := Plus(MachineSum0(r.a), MachineMaj(r.a, r.b, r.c));
    Machine8(Plus(t1, t2), r.a, r.b, r.c, Plus(r.d, t1), r.e, r.f, r.g)
  }

  function MachineNext(w16: bv32, w15: bv32, w7: bv32, w2: bv32): bv32 {
    Plus(Plus(Plus(w16, MachineSigma0(w15)), w7), MachineSigma1(w2))
  }

  lemma Words16()
    ensures MachineNext(0x61626380, 0x00000000, 0x00000000, 0x00000000) == 0x61626380
    ensures MachineNext(0x00000000, 0x00000000, 0x00000000, 0x00000018) == 0x000F0000
    ensures MachineNext(0x00000000, 0x00000000, 0x00000000, 0x61626380) == 0x7DA86405
    ensures MachineNext(0x00000000, 0x00000000, 0x00000000, 0x000F0000) == 0x600003C6
    ensures MachineNext(0x00000000, 0x00000000, 0x00000000, 0x7DA86405) == 0x3E9D7B78
    ensures MachineNext(0x00000000, 0x00000000, 0x00000000, 0x600003C6) == 0x0183FC00
    ensures MachineNext(0x00000000, 0x00000000, 0x00000018, 0x3E9D7B78) == 0x12DCBFDB
    ensures MachineNext(0x00000000, 0x00000000, 0x61626380, 0x0183FC00) == 0xE2E2C38E
  {
  }

  lemma Words24()
    ensures MachineNext(0x00000000, 0x00000000, 0x000F0000, 0x12DCBFDB) == 0xC8215C1A
    ensures MachineNext(0x00000000, 0x00000000, 0x7DA86405, 0xE2E2C38E) == 0xB73679A2
    ensures MachineNext(0x00000000, 0x00000000, 0x600003C6, 0xC8215C1A) == 0xE5BC3909
    ensures MachineNext(0x00000000, 0x00000000, 0x3E9D7B78, 0xB73679A2) == 0x32663C5B
    ensures MachineNext(0x00000000, 0x00000000, 0x0183FC00, 0xE5BC3909) == 0x9D209D67
    ensures MachineNext(0x00000000, 0x00000000, 0x12DCBFDB, 0x32663C5B) == 0xEC8726CB
    ensures MachineNext(0x00000000, 0x00000018, 0xE2E2C38E, 0x9D209D67) == 0x702138A4
    ensures MachineNext(0x00000018, 0x61626380, 0xC8215C1A, 0xEC8726CB) == 0xD3B7973B
  {
  }

  lemma Words32()
    ensures MachineNext(0x61626380, 0x000F0000, 0xB73679A2, 0x702138A4) == 0x93F5997F
    ensures MachineNext(0x000F0000, 0x7DA86405, 0xE5BC3909, 0xD3B7973B) == 0x3B68BA73
    ensures MachineNext(0x7DA86405, 0x600003C6, 0x32663C5B, 0x93F5997F) == 0xAFF4FFC1
    ensures MachineNext(0x600003C6, 0x3E9D7B78, 0x9D209D67, 0x3B68BA73) == 0xF10A5C62
    ensures MachineNext(0x3E9D7B78, 0x0183FC00, 0xEC8726CB, 0xAFF4FFC1) == 0x0A8B3996
    ensures MachineNext(0x0183FC00, 0x12DCBFDB, 0x702138A4, 0xF10A5C62) == 0x72AF830A
    ensures MachineNext(0x12DCBFDB, 0xE2E2C38E, 0xD3B7973B, 0x0A8B3996) == 0x9409E33E
    ensures MachineNext(0xE2E2C38E, 0xC8215C1A, 0x93F5997F, 0x72AF830A) == 0x24641522
  {
  }

  lemma Words40()
    ensures MachineNext(0xC8215C1A, 0xB73679A2, 0x3B68BA73, 0x9409E33E) == 0x9F47BF94
    ensures MachineNext(0xB73679A2, 0xE5BC3909, 0xAFF4FFC1, 0x24641522) == 0xF0A64F5A
    ensures MachineNext(0xE5BC3909, 0x32663C5B, 0xF10A5C62, 0x9F47BF94) == 0x3E246A79
    ensures MachineNext(0x32663C5B, 0x9D209D67, 0x0A8B3996, 0xF0A64F5A) == 0x27333BA3
    ensures MachineNext(0x9D209D67, 0xEC8726CB, 0x72AF830A, 0x3E246A79) == 0x0C4763F2
    ensures MachineNext(0xEC8726CB, 0x702138A4, 0x9409E33E, 0x27333BA3) == 0x840ABF27
    ensures MachineNext(0x702138A4, 0xD3B7973B, 0x24641522, 0x0C4763F2) == 0x7A290D5D
    ensures MachineNext(0xD3B7973B, 0x93F5997F, 0x9F47BF94, 0x840ABF27) == 0x065C43DA
  {
  }

  lemma Words48()
    ensures MachineNext(0x93F5997F, 0x3B68BA73, 0xF0A64F5A, 0x7A290D5D) == 0xFB3E89CB
    ensures MachineNext(0x3B68BA73, 0xAFF4FFC1, 0x3E246A79, 0x065C43DA) == 0xCC7617DB
    ensures MachineNext(0xAFF4FFC1, 0xF10A5C62, 0x27333BA3, 0xFB3E89CB) == 0xB9E66C34
    ensures MachineNext(0xF10A5C62, 0x0A8B3996, 0x0C4763F2, 0xCC7617DB) == 0xA9993667
    ensures MachineNext(0x0A8B3996, 0x72AF830A, 0x840ABF27, 0xB9E66C34) == 0x84BADEDD
    ensures MachineNext(0x72AF830A, 0x9409E33E, 0x7A290D5D, 0xA9993667) == 0xC21462BC
    ensures MachineNext(0x9409E33E, 0x24641522, 0x065C43DA, 0x84BADEDD) == 0x1487472C
    ensures MachineNext(0x24641522, 0x9F47BF94, 0xFB3E89CB, 0xC21462BC) == 0xB20F7A99
  {
  }

  lemma Words56()
    ensures MachineNext(0x9F47BF94, 0xF0A64F5A, 0xCC7617DB, 0x1487472C) == 0xEF57B9CD
    ensures MachineNext(0xF0A64F5A, 0x3E246A79, 0xB9E66C34, 0xB20F7A99) == 0xEBE6B238
    ensures MachineNext(0x3E246A79, 0x27333BA3, 0xA9993667, 0xEF57B9CD) == 0x9FE3095E
    ensures MachineNext(0x27333BA3, 0x0C4763F2, 0x84BADEDD, 0xEBE6B238) == 0x78BC8D4B
    ensures MachineNext(0x0C4763F2, 0x840ABF27, 0xC21462BC, 0x9FE3095E) == 0xA43FCF15
    ensures MachineNext(0x840ABF27, 0x7A290D5D, 0x1487472C, 0x78BC8D4B) == 0x668B2FF8
    ensures MachineNext(0x7A290D5D, 0x065C43DA, 0xB20F7A99, 0xA43FCF15) == 0xEEABA2CC
    ensures MachineNext(0x065C43DA, 0xFB3E89CB, 0xEF57B9CD, 0x668B2FF8) == 0x12B1EDEB
  {
  }

  lemma Rounds0()
    ensures MachineRound(Machine8(0x6A09E667, 0xBB67AE85, 0x3C6EF372, 0xA54FF53A,
                                  0x510E527F, 0x9B05688C, 0x1F83D9AB, 0x5BE0CD19),
                         0x428A2F98, 0x61626380)
         == Machine8(0x5D6AEBCD, 0x6A09E667, 0xBB67AE85, 0x3C6EF372, 0xFA2A4622, 0x510E527F, 0x9B05688C, 0x1F83D9AB)
    ensures MachineRound(Machine8(0x5D6AEBCD, 0x6A09E667, 0xBB67AE85, 0x3C6EF372,
                                  0xFA2A4622, 0x510E527F, 0x9B05688C, 0x1F83D9AB),
                         0x71374491, 0x00000000)
         == Machine8(0x5A6AD9AD, 0x5D6AEBCD, 0x6A09E667, 0xBB67AE85, 0x78CE7989, 0xFA2A4622, 0x510E527F, 0x9B05688C)
    ensures MachineRound(Machine8(0x5A6AD9AD, 0x5D6AEBCD, 0x6A09E667, 0xBB67AE85,
                                  0x78CE7989, 0xFA2A4622, 0x510E527F, 0x9B05688C),
                         0xB5C0FBCF, 0x00000000)
         == Machine8(0xC8C347A7, 0x5A6AD9AD, 0x5D6AEBCD, 0x6A09E667, 0xF92939EB, 0x78CE7989, 0xFA2A4622, 0x510E527F)
    ensures MachineRound(Machine8(0xC8C347A7, 0x5A6AD9AD, 0x5D6AEBCD, 0x6A09E667,
                                  0xF92939EB, 0x78CE7989, 0xFA2A4622, 0x510E527F),
                         0xE9B5DBA5, 0x00000000)
         == Machine8(0xD550F666, 0xC8C347A7, 0x5A6AD9AD, 0x5D6AEBCD, 0x24E00850, 0xF92939EB, 0x78CE7989, 0xFA2A4622)
  {
  }

  lemma Rounds4()
    ensures MachineRound(Machine8(0xD550F666, 0xC8C347A7, 0x5A6AD9AD, 0x5D6AEBCD,
                                  0x24E00850, 0xF92939EB, 0x78CE7989, 0xFA2A4622),
                         0x3956C25B, 0x00000000)
         == Machine8(0x04409A6A, 0xD550F666, 0xC8C347A7, 0x5A6AD9AD, 0x43ADA245, 0x24E00850, 0xF92939EB, 0x78CE7989)
    ensures MachineRound(Machine8(0x04409A6A, 0xD550F666, 0xC8C347A7, 0x5A6AD9AD,
                                  0x43ADA245, 0x24E00850, 0xF92939EB, 0x78CE7989),
                         0x59F111F1, 0x00000000)
         == Machine8(0x2B4209F5, 0x04409A6A, 0xD550F666, 0xC8C347A7, 0x714260AD, 0x43ADA245, 0x24E00850, 0xF92939EB)
    ensures MachineRound(Machine8(0x2B4209F5, 0x04409A6A, 0xD550F666, 0xC8C347A7,
                                  0x714260AD, 0x43ADA245, 0x24E00850, 0xF92939EB),
                         0x923F82A4, 0x00000000)
         == Machine8(0xE5030380, 0x2B4209F5, 0x04409A6A, 0xD550F666, 0x9B27A401, 0x714260AD, 0x43ADA245, 0x24E00850)
    ensures MachineRound(Machine8(0xE5030380, 0x2B4209F5, 0x04409A6A, 0xD550F666,
                                  0x9B27A401, 0x714260AD, 0x43ADA245, 0x24E00850),
                         0xAB1C5ED5, 0x00000000)
         == Machine8(0x85A07B5F, 0xE5030380, 0x2B4209F5, 0x04409A6A, 0x0C657A79, 0x9B27A401, 0x714260AD, 0x43ADA245)
  {
  }

  lemma Rounds8()
    ensures MachineRound(Machine8(0x85A07B5F, 0xE5030380, 0x2B4209F5, 0x04409A6A,
                                  0x0C657A79, 0x9B27A401, 0x714260AD, 0x43ADA245),
                         0xD807AA98, 0x00000000)
         == Machine8(0x8E04ECB9, 0x85A07B5F, 0xE5030380, 0x2B4209F5, 0x32CA2D8C, 0x0C657A79, 0x9B27A401, 0x714260AD)
    ensures MachineRound(Machine8(0x8E04ECB9, 0x85A07B5F, 0xE5030380, 0x2B4209F5,
                                  0x32CA2D8C, 0x0C657A79, 0x9B27A401, 0x714260AD),
                         0x12835B01, 0x00000000)
         == Machine8(0x8C87346B, 0x8E04ECB9, 0x85A07B5F, 0xE5030380, 0x1CC92596, 0x32CA2D8C, 0x0C657A79, 0x9B27A401)
    ensures MachineRound(Machine8(0x8C87346B, 0x8E04ECB9, 0x85A07B5F, 0xE5030380,
                                  0x1CC92596, 0x32CA2D8C, 0x0C657A79, 0x9B27A401),
                         0x243185BE, 0x00000000)
         == Machine8(0x4798A3F4, 0x8C87346B, 0x8E04ECB9, 0x85A07B5F, 0x436B23E8, 0x1CC92596, 0x32CA2D8C, 0x0C657A79)
    ensures MachineRound(Machine8(0x4798A3F4, 0x8C87346B, 0x8E04ECB9, 0x85A07B5F,
                                  0x436B23E8, 0x1CC92596, 0x32CA2D8C, 0x0C657A79),
                         0x550C7DC3, 0x00000000)
         == Machine8(0xF71FC5A9, 0x4798A3F4, 0x8C87346B, 0x8E04ECB9, 0x816FD6E9, 0x436B23E8, 0x1CC92596, 0x32CA2D8C)
  {
  }

  lemma Rounds12()
    ensures MachineRound(Machine8(0xF71FC5A9, 0x4798A3F4, 0x8C87346B, 0x8E04ECB9,
                                  0x816FD6E9, 0x436B23E8, 0x1CC92596, 0x32CA2D8C),
                         0x72BE5D74, 0x00000000)
         == Machine8(0x87912990, 0xF71FC5A9, 0x4798A3F4, 0x8C87346B, 0x1E578218, 0x816FD6E9, 0x436B23E8, 0x1CC92596)
    ensures MachineRound(Machine8(0x87912990, 0xF71FC5A9, 0x4798A3F4, 0x8C87346B,
                                  0x1E578218, 0x816FD6E9, 0x436B23E8, 0x1CC92596),
                         0x80DEB1FE, 0x00000000)
         == Machine8(0xD932EB16, 0x87912990, 0xF71FC5A9, 0x4798A3F4, 0x745A48DE, 0x1E578218, 0x816FD6E9, 0x436B23E8)
    ensures MachineRound(Machine8(0xD932EB16, 0x87912990, 0xF71FC5A9, 0x4798A3F4,
                                  0x745A48DE, 0x1E578218, 0x816FD6E9, 0x436B23E8),
                         0x9BDC06A7, 0x00000000)
         == Machine8(0xC0645FDE, 0xD932EB16, 0x87912990, 0xF71FC5A9, 0x0B92F20C, 0x745A48DE, 0x1E578218, 0x816FD6E9)
    ensures MachineRound(Machine8(0xC0645FDE, 0xD932EB16, 0x87912990, 0xF71FC5A9,
                                  0x0B92F20C, 0x745A48DE, 0x1E578218, 0x816FD6E9),
                         0xC19BF174, 0x00000018)
         == Machine8(0xB0FA238E, 0xC0645FDE, 0xD932EB16, 0x87912990, 0x07590DCD, 0x0B92F20C, 0x745A48DE, 0x1E578218)
  {
  }

  lemma Rounds16()
    ensures MachineRound(Machine8(0xB0FA238E, 0xC0645FDE, 0xD932EB16, 0x87912990,
                                  0x07590DCD, 0x0B92F20C, 0x745A48DE, 0x1E578218),
                         0xE49B69C1, 0x61626380)
         == Machine8(0x21DA9A9B, 0xB0FA238E, 0xC0645FDE, 0xD932EB16, 0x8034229C, 0x07590DCD, 0x0B92F20C, 0x745A48DE)
    ensures MachineRound(Machine8(0x21DA9A9B, 0xB0FA238E, 0xC0645FDE, 0xD932EB16,
                                  0x8034229C, 0x07590DCD, 0x0B92F20C, 0x745A48DE),
                         0xEFBE4786, 0x000F0000)
         == Machine8(0xC2FBD9D1, 0x21DA9A9B, 0xB0FA238E, 0xC0645FDE, 0x846EE454, 0x8034229C, 0x07590DCD, 0x0B92F20C)
    ensures MachineRound(Machine8(0xC2FBD9D1, 0x21DA9A9B, 0xB0FA238E, 0xC0645FDE,
                                  0x846EE454, 0x8034229C, 0x07590DCD, 0x0B92F20C),
                         0x0FC19DC6, 0x7DA86405)
         == Machine8(0xFE777BBF, 0xC2FBD9D1, 0x21DA9A9B, 0xB0FA238E, 0xCC899961, 0x846EE454, 0x8034229C, 0x07590DCD)
    ensures MachineRound(Machine8(0xFE777BBF, 0xC2FBD9D1, 0x21DA9A9B, 0xB0FA238E,
                                  0xCC899961, 0x846EE454, 0x8034229C, 0x07590DCD),
                         0x240CA1CC, 0x600003C6)
         == Machine8(0xE1F20C33, 0xFE777BBF, 0xC2FBD9D1, 0x21DA9A9B, 0xB0638179, 0xCC899961, 0x846EE454, 0x8034229C)
  {
  }

  lemma Rounds20()
    ensures MachineRound(Machine8(0xE1F20C33, 0xFE777BBF, 0xC2FBD9D1, 0x21DA9A9B,
                                  0xB0638179, 0xCC899961, 0x846EE454, 0x8034229C),
                         0x2DE92C6F, 0x3E9D7B78)
         == Machine8(0x9DC68B63, 0xE1F20C33, 0xFE777BBF, 0xC2FBD9D1, 0x8ADA8930, 0xB0638179, 0xCC899961, 0x846EE454)
    ensures MachineRound(Machine8(0x9DC68B63, 0xE1F20C33, 0xFE777BBF, 0xC2FBD9D1,
                                  0x8ADA8930, 0xB0638179, 0xCC899961, 0x846EE454),
                         0x4A7484AA, 0x0183FC00)
         == Machine8(0xC2606D6D, 0x9DC68B63, 0xE1F20C33, 0xFE777BBF, 0xE1257970, 0x8ADA8930, 0xB0638179, 0xCC899961)
    ensures MachineRound(Machine8(0xC2606D6D, 0x9DC68B63, 0xE1F20C33, 0xFE777BBF,
                                  0xE1257970, 0x8ADA8930, 0xB0638179, 0xCC899961),
                         0x5CB0A9DC, 0x12DCBFDB)
         == Machine8(0xA7A3623F, 0xC2606D6D, 0x9DC68B63, 0xE1F20C33, 0x49F5114A, 0xE1257970, 0x8ADA8930, 0xB0638179)
    ensures MachineRound(Machine8(0xA7A3623F, 0xC2606D6D, 0x9DC68B63, 0xE1F20C33,
                                  0x49F5114A, 0xE1257970, 0x8ADA8930, 0xB0638179),
                         0x76F988DA, 0xE2E2C38E)
         == Machine8(0xC5D53D8D, 0xA7A3623F, 0xC2606D6D, 0x9DC68B63, 0xAA47C347, 0x49F5114A, 0xE1257970, 0x8ADA8930)
  {
  }

  lemma Rounds24()
    ensures MachineRound(Machine8(0xC5D53D8D, 0xA7A3623F, 0xC2606D6D, 0x9DC68B63,
                                  0xAA47C347, 0x49F5114A, 0xE1257970, 0x8ADA8930),
                         0x983E5152, 0xC8215C1A)
         == Machine8(0x1C2C2838, 0xC5D53D8D, 0xA7A3623F, 0xC2606D6D, 0x2823EF91, 0xAA47C347, 0x49F5114A, 0xE1257970)
    ensures MachineRound(Machine8(0x1C2C2838, 0xC5D53D8D, 0xA7A3623F, 0xC2606D6D,
                                  0x2823EF91, 0xAA47C347, 0x49F5114A, 0xE1257970),
                         0xA831C66D, 0xB73679A2)
         == Machine8(0xCDE8037D, 0x1C2C2838, 0xC5D53D8D, 0xA7A3623F, 0x14383D8E, 0x2823EF91, 0xAA47C347, 0x49F5114A)
    ensures MachineRound(Machine8(0xCDE8037D, 0x1C2C2838, 0xC5D53D8D, 0xA7A3623F,
                                  0x14383D8E, 0x2823EF91, 0xAA47C347, 0x49F5114A),
                         0xB00327C8, 0xE5BC3909)
         == Machine8(0xB62EC4BC, 0xCDE8037D, 0x1C2C2838, 0xC5D53D8D, 0xC74C6516, 0x14383D8E, 0x2823EF91, 0xAA47C347)
    ensures MachineRound(Machine8(0xB62EC4BC, 0xCDE8037D, 0x1C2C2838, 0xC5D53D8D,
                                  0xC74C6516, 0x14383D8E, 0x2823EF91, 0xAA47C347),
                         0xBF597FC7, 0x32663C5B)
         == Machine8(0x77D37528, 0xB62EC4BC, 0xCDE8037D, 0x1C2C2838, 0xEDFFBFF8, 0xC74C6516, 0x14383D8E, 0x2823EF91)
  {
  }

  lemma Rounds28()
    ensures MachineRound(Machine8(0x77D37528, 0xB62EC4BC, 0xCDE8037D, 0x1C2C2838,
                                  0xEDFFBFF8, 0xC74C6516, 0x14383D8E, 0x2823EF91),
                         0xC6E00BF3, 0x9D209D67)
         == Machine8(0x363482C9, 0x77D37528, 0xB62EC4BC, 0xCDE8037D, 0x6112A3B7, 0xEDFFBFF8, 0xC74C6516, 0x14383D8E)
    ensures MachineRound(Machine8(0x363482C9, 0x77D37528, 0xB62EC4BC, 0xCDE8037D,
                                  0x6112A3B7, 0xEDFFBFF8, 0xC74C6516, 0x14383D8E),
                         0xD5A79147, 0xEC8726CB)
         == Machine8(0xA0060B30, 0x363482C9, 0x77D37528, 0xB62EC4BC, 0xADE79437, 0x6112A3B7, 0xEDFFBFF8, 0xC74C6516)
    ensures MachineRound(Machine8(0xA0060B30, 0x363482C9, 0x77D37528, 0xB62EC4BC,
                                  0xADE79437, 0x6112A3B7, 0xEDFFBFF8, 0xC74C6516),
                         0x06CA6351, 0x702138A4)
         == Machine8(0xEA992A22, 0xA0060B30, 0x363482C9, 0x77D37528, 0x0109AB3A, 0xADE79437, 0x6112A3B7, 0xEDFFBFF8)
    ensures MachineRound(Machine8(0xEA992A22, 0xA0060B30, 0x363482C9, 0x77D37528,
                                  0x0109AB3A, 0xADE79437, 0x6112A3B7, 0xEDFFBFF8),
                         0x14292967, 0xD3B7973B)
         == Machine8(0x73B33BF5, 0xEA992A22, 0xA0060B30, 0x363482C9, 0xBA591112, 0x0109AB3A, 0xADE79437, 0x6112A3B7)
  {
  }

  lemma Rounds32()
    ensures MachineRound(Machine8(0x73B33BF5, 0xEA992A22, 0xA0060B30, 0x363482C9,
                                  0xBA591112, 0x0109AB3A, 0xADE79437, 0x6112A3B7),
                         0x27B70A85, 0x93F5997F)
         == Machine8(0x98E12507, 0x73B33BF5, 0xEA992A22, 0xA0060B30, 0x9CD9F5F6, 0xBA591112, 0x0109AB3A, 0xADE79437)
    ensures MachineRound(Machine8(0x98E12507, 0x73B33BF5, 0xEA992A22, 0xA0060B30,
                                  0x9CD9F5F6, 0xBA591112, 0x0109AB3A, 0xADE79437),
                         0x2E1B2138, 0x3B68BA73)
         == Machine8(0xFE604DF5, 0x98E12507, 0x73B33BF5, 0xEA992A22, 0x59249DD3, 0x9CD9F5F6, 0xBA591112, 0x0109AB3A)
    ensures MachineRound(Machine8(0xFE604DF5, 0x98E12507, 0x73B33BF5, 0xEA992A22,
                                  0x59249DD3, 0x9CD9F5F6, 0xBA591112, 0x0109AB3A),
                         0x4D2C6DFC, 0xAFF4FFC1)
         == Machine8(0xA9A7738C, 0xFE604DF5, 0x98E12507, 0x73B33BF5, 0x085F3833, 0x59249DD3, 0x9CD9F5F6, 0xBA591112)
    ensures MachineRound(Machine8(0xA9A7738C, 0xFE604DF5, 0x98E12507, 0x73B33BF5,
                                  0x085F3833, 0x59249DD3, 0x9CD9F5F6, 0xBA591112),
                         0x53380D13, 0xF10A5C62)
         == Machine8(0x65A0CFE4, 0xA9A7738C, 0xFE604DF5, 0x98E12507, 0xF4B002D6, 0x085F3833, 0x59249DD3, 0x9CD9F5F6)
  {
  }

  lemma Rounds36()
    ensures MachineRound(Machine8(0x65A0CFE4, 0xA9A7738C, 0xFE604DF5, 0x98E12507,
                                  0xF4B002D6, 0x085F3833, 0x59249DD3, 0x9CD9F5F6),
                         0x650A7354, 0x0A8B3996)
         == Machine8(0x41A65CB1, 0x65A0CFE4, 0xA9A7738C, 0xFE604DF5, 0x0772A26B, 0xF4B002D6, 0x085F3833, 0x59249DD3)
    ensures MachineRound(Machine8(0x41A65CB1, 0x65A0CFE4, 0xA9A7738C, 0xFE604DF5,
                                  0x0772A26B, 0xF4B002D6, 0x085F3833, 0x59249DD3),
                         0x766A0ABB, 0x72AF830A)
         == Machine8(0x34DF1604, 0x41A65CB1, 0x65A0CFE4, 0xA9A7738C, 0xA507A53D, 0x0772A26B, 0xF4B002D6, 0x085F3833)
    ensures MachineRound(Machine8(0x34DF1604, 0x41A65CB1, 0x65A0CFE4, 0xA9A7738C,
                                  0xA507A53D, 0x0772A26B, 0xF4B002D6, 0x085F3833),
                         0x81C2C92E, 0x9409E33E)
         == Machine8(0x6DC57A8A, 0x34DF1604, 0x41A65CB1, 0x65A0CFE4, 0xF0781BC8, 0xA507A53D, 0x0772A26B, 0xF4B002D6)
    ensures MachineRound(Machine8(0x6DC57A8A, 0x34DF1604, 0x41A65CB1, 0x65A0CFE4,
                                  0xF0781BC8, 0xA507A53D, 0x0772A26B, 0xF4B002D6),
                         0x92722C85, 0x24641522)
         == Machine8(0x79EA687A, 0x6DC57A8A, 0x34DF1604, 0x41A65CB1, 0x1EFBC0A0, 0xF0781BC8, 0xA507A53D, 0x0772A26B)
  {
  }

  lemma Rounds40()
    ensures MachineRound(Machine8(0x79EA687A, 0x6DC57A8A, 0x34DF1604, 0x41A65CB1,
                                  0x1EFBC0A0, 0xF0781BC8, 0xA507A53D, 0x0772A26B),
                         0xA2BFE8A1, 0x9F47BF94)
         == Machine8(0xD6670766, 0x79EA687A, 0x6DC57A8A, 0x34DF1604, 0x26352D63, 0x1EFBC0A0, 0xF0781BC8, 0xA507A53D)
    ensures MachineRound(Machine8(0xD6670766, 0x79EA687A, 0x6DC57A8A, 0x34DF1604,
                                  0x26352D63, 0x1EFBC0A0, 0xF0781BC8, 0xA507A53D),
                         0xA81A664B, 0xF0A64F5A)
         == Machine8(0xDF46652F, 0xD6670766, 0x79EA687A, 0x6DC57A8A, 0x838B2711, 0x26352D63, 0x1EFBC0A0, 0xF0781BC8)
    ensures MachineRound(Machine8(0xDF46652F, 0xD6670766, 0x79EA687A, 0x6DC57A8A,
                                  0x838B2711, 0x26352D63, 0x1EFBC0A0, 0xF0781BC8),
                         0xC24B8B70, 0x3E246A79)
         == Machine8(0x17AA0DFE, 0xDF46652F, 0xD6670766, 0x79EA687A, 0xDECD4715, 0x838B2711, 0x26352D63, 0x1EFBC0A0)
    ensures MachineRound(Machine8(0x17AA0DFE, 0xDF46652F, 0xD6670766, 0x79EA687A,
                                  0xDECD4715, 0x838B2711, 0x26352D63, 0x1EFBC0A0),
                         0xC76C51A3, 0x27333BA3)
         == Machine8(0x9D4BAF93, 0x17AA0DFE, 0xDF46652F, 0xD6670766, 0xFDA24C2E, 0xDECD4715, 0x838B2711, 0x26352D63)
  {
  }

  lemma Rounds44()
    ensures MachineRound(Machine8(0x9D4BAF93, 0x17AA0DFE, 0xDF46652F, 0xD6670766,
                                  0xFDA24C2E, 0xDECD4715, 0x838B2711, 0x26352D63),
                         0xD192E819, 0x0C4763F2)
         == Machine8(0x26628815, 0x9D4BAF93, 0x17AA0DFE, 0xDF46652F, 0xA80F11F0, 0xFDA24C2E, 0xDECD4715, 0x838B2711)
    ensures MachineRound(Machine8(0x26628815, 0x9D4BAF93, 0x17AA0DFE, 0xDF46652F,
                                  0xA80F11F0, 0xFDA24C2E, 0xDECD4715, 0x838B2711),
                         0xD6990624, 0x840ABF27)
         == Machine8(0x72AB4B91, 0x26628815, 0x9D4BAF93, 0x17AA0DFE, 0xB7755DA1, 0xA80F11F0, 0xFDA24C2E, 0xDECD4715)
    ensures MachineRound(Machine8(0x72AB4B91, 0x26628815, 0x9D4BAF93, 0x17AA0DFE,
                                  0xB7755DA1, 0xA80F11F0, 0xFDA24C2E, 0xDECD4715),
                         0xF40E3585, 0x7A290D5D)
         == Machine8(0xA14C14B0, 0x72AB4B91, 0x26628815, 0x9D4BAF93, 0xD57B94A9, 0xB7755DA1, 0xA80F11F0, 0xFDA24C2E)
    ensures MachineRound(Machine8(0xA14C14B0, 0x72AB4B91, 0x26628815, 0x9D4BAF93,
                                  0xD57B94A9, 0xB7755DA1, 0xA80F11F0, 0xFDA24C2E),
                         0x106AA070, 0x065C43DA)
         == Machine8(0x4172328D, 0xA14C14B0, 0x72AB4B91, 0x26628815, 0xFECF0BC6, 0xD57B94A9, 0xB7755DA1, 0xA80F11F0)
  {
  }

  lemma Rounds48()
    ensures MachineRound(Machine8(0x4172328D, 0xA14C14B0, 0x72AB4B91, 0x26628815,
                                  0xFECF0BC6, 0xD57B94A9, 0xB7755DA1, 0xA80F11F0),
                         0x19A4C116, 0xFB3E89CB)
         == Machine8(0x05757CEB, 0x4172328D, 0xA14C14B0, 0x72AB4B91, 0xBD714038, 0xFECF0BC6, 0xD57B94A9, 0xB7755DA1)
    ensures MachineRound(Machine8(0x05757CEB, 0x4172328D, 0xA14C14B0, 0x72AB4B91,
                                  0xBD714038, 0xFECF0BC6, 0xD57B94A9, 0xB7755DA1),
                         0x1E376C08, 0xCC7617DB)
         == Machine8(0xF11BFAA8, 0x05757CEB, 0x4172328D, 0xA14C14B0, 0x6E5C390C, 0xBD714038, 0xFECF0BC6, 0xD57B94A9)
    ensures MachineRound(Machine8(0xF11BFAA8, 0x05757CEB, 0x4172328D, 0xA14C14B0,
                                  0x6E5C390C, 0xBD714038, 0xFECF0BC6, 0xD57B94A9),
                         0x2748774C, 0xB9E66C34)
         == Machine8(0x7A0508A1, 0xF11BFAA8, 0x05757CEB, 0x4172328D, 0x52F1CCF7, 0x6E5C390C, 0xBD714038, 0xFECF0BC6)
    ensures MachineRound(Machine8(0x7A0508A1, 0xF11BFAA8, 0x05757CEB, 0x4172328D,
                                  0x52F1CCF7, 0x6E5C390C, 0xBD714038, 0xFECF0BC6),
                         0x34B0BCB5, 0xA9993667)
         == Machine8(0x886E7A22, 0x7A0508A1, 0xF11BFAA8, 0x05757CEB, 0x49231C1E, 0x52F1CCF7, 0x6E5C390C, 0xBD714038)
  {
  }

  lemma Rounds52()
    ensures MachineRound(Machine8(0x886E7A22, 0x7A0508A1, 0xF11BFAA8, 0x05757CEB,
                                  0x49231C1E, 0x52F1CCF7, 0x6E5C390C, 0xBD714038),
                         0x391C0CB3, 0x84BADEDD)
         == Machine8(0x101FD28F, 0x886E7A22, 0x7A0508A1, 0xF11BFAA8, 0x529E7D00, 0x49231C1E, 0x52F1CCF7, 0x6E5C390C)
    ensures MachineRound(Machine8(0x101FD28F, 0x886E7A22, 0x7A0508A1, 0xF11BFAA8,
                                  0x529E7D00, 0x49231C1E, 0x52F1CCF7, 0x6E5C390C),
                         0x4ED8AA4A, 0xC21462BC)
         == Machine8(0xF5702FDB, 0x101FD28F, 0x886E7A22, 0x7A0508A1, 0x9F4787C3, 0x529E7D00, 0x49231C1E, 0x52F1CCF7)
    ensures MachineRound(Machine8(0xF5702FDB, 0x101FD28F, 0x886E7A22, 0x7A0508A1,
                                  0x9F4787C3, 0x529E7D00, 0x49231C1E, 0x52F1CCF7),
                         0x5B9CCA4F, 0x1487472C)
         == Machine8(0x3EC45CDB, 0xF5702FDB, 0x101FD28F, 0x886E7A22, 0xE50E1B4F, 0x9F4787C3, 0x529E7D00, 0x49231C1E)
    ensures MachineRound(Machine8(0x3EC45CDB, 0xF5702FDB, 0x101FD28F, 0x886E7A22,
                                  0xE50E1B4F, 0x9F4787C3, 0x529E7D00, 0x49231C1E),
                         0x682E6FF3, 0xB20F7A99)
         == Machine8(0x38CC9913, 0x3EC45CDB, 0xF5702FDB, 0x101FD28F, 0x54CB266B, 0xE50E1B4F, 0x9F4787C3, 0x529E7D00)
  {
  }

  lemma Rounds56()
    ensures MachineRound(Machine8(0x38CC9913, 0x3EC45CDB, 0xF5702FDB, 0x101FD28F,
                                  0x54CB266B, 0xE50E1B4F, 0x9F4787C3, 0x529E7D00),
                         0x748F82EE, 0xEF57B9CD)
         == Machine8(0xFCD1887B, 0x38CC9913, 0x3EC45CDB, 0xF5702FDB, 0x9B5E906C, 0x54CB266B, 0xE50E1B4F, 0x9F4787C3)
    ensures MachineRound(Machine8(0xFCD1887B, 0x38CC9913, 0x3EC45CDB, 0xF5702FDB,
                                  0x9B5E906C, 0x54CB266B, 0xE50E1B4F, 0x9F4787C3),
                         0x78A5636F, 0xEBE6B238)
         == Machine8(0xC062D46F, 0xFCD1887B, 0x38CC9913, 0x3EC45CDB, 0x7E44008E, 0x9B5E906C, 0x54CB266B, 0xE50E1B4F)
    ensures MachineRound(Machine8(0xC062D46F, 0xFCD1887B, 0x38CC9913, 0x3EC45CDB,
                                  0x7E44008E, 0x9B5E906C, 0x54CB266B, 0xE50E1B4F),
                         0x84C87814, 0x9FE3095E)
         == Machine8(0xFFB70472, 0xC062D46F, 0xFCD1887B, 0x38CC9913, 0x6D83BFC6, 0x7E44008E, 0x9B5E906C, 0x54CB266B)
    ensures MachineRound(Machine8(0xFFB70472, 0xC062D46F, 0xFCD1887B, 0x38CC9913,
                                  0x6D83BFC6, 0x7E44008E, 0x9B5E906C, 0x54CB266B),
                         0x8CC70208, 0x78BC8D4B)
         == Machine8(0xB6AE8FFF, 0xFFB70472, 0xC062D46F, 0xFCD1887B, 0xB21BAD3D, 0x6D83BFC6, 0x7E44008E, 0x9B5E906C)
  {
  }

  lemma Rounds60()
    ensures MachineRound(Machine8(0xB6AE8FFF, 0xFFB70472, 0xC062D46F, 0xFCD1887B,
                                  0xB21BAD3D, 0x6D83BFC6, 0x7E44008E, 0x9B5E906C),
                         0x90BEFFFA, 0xA43FCF15)
         == Machine8(0xB85E2CE9, 0xB6AE8FFF, 0xFFB70472, 0xC062D46F, 0x961F4894, 0xB21BAD3D, 0x6D83BFC6, 0x7E44008E)
    ensures MachineRound(Machine8(0xB85E2CE9, 0xB6AE8FFF, 0xFFB70472, 0xC062D46F,
                                  0x961F4894, 0xB21BAD3D, 0x6D83BFC6, 0x7E44008E),
                         0xA4506CEB, 0x668B2FF8)
         == Machine8(0x04D24D6C, 0xB85E2CE9, 0xB6AE8FFF, 0xFFB70472, 0x948D25B6, 0x961F4894, 0xB21BAD3D, 0x6D83BFC6)
    ensures MachineRound(Machine8(0x04D24D6C, 0xB85E2CE9, 0xB6AE8FFF, 0xFFB70472,
                                  0x948D25B6, 0x961F4894, 0xB21BAD3D, 0x6D83BFC6),
                         0xBEF9A3F7, 0xEEABA2CC)
         == Machine8(0xD39A2165, 0x04D24D6C, 0xB85E2CE9, 0xB6AE8FFF, 0xFB121210, 0x948D25B6, 0x961F4894, 0xB21BAD3D)
    ensures MachineRound(Machine8(0xD39A2165, 0x04D24D6C, 0xB85E2CE9, 0xB6AE8FFF,
                                  0xFB121210, 0x948D25B6, 0x961F4894, 0xB21BAD3D),
                         0xC67178F2, 0x12B1EDEB)
         == Machine8(0x506E3058, 0xD39A2165, 0x04D24D6C, 0xB85E2CE9, 0x5EF50F24, 0xFB121210, 0x948D25B6, 0x961F4894)
  {
  }

  lemma Constants0()
    ensures Hex8(4, 2, 8, 10, 2, 15, 9, 8) == 0x428A2F98
    ensures Hex8(7, 1, 3, 7, 4, 4, 9, 1) == 0x71374491
    ensures Hex8(11, 5, 12, 0, 15, 11, 12, 15) == 0xB5C0FBCF
    ensures Hex8(14, 9, 11, 5, 13, 11, 10, 5) == 0xE9B5DBA5
    ensures Hex8(3, 9, 5, 6, 12, 2, 5, 11) == 0x3956C25B
    ensures Hex8(5, 9, 15, 1, 1, 1, 15, 1) == 0x59F111F1
    ensures Hex8(9, 2, 3, 15, 8, 2, 10, 4) == 0x923F82A4
    ensures Hex8(10, 11, 1, 12, 5, 14, 13, 5) == 0xAB1C5ED5
  {
  }

  lemma Constants8()
    ensures Hex8(13, 8, 0, 7, 10, 10, 9, 8) == 0xD807AA98
    ensures Hex8(1, 2, 8, 3, 5, 11, 0, 1) == 0x12835B01
    ensures Hex8(2, 4, 3, 1, 8, 5, 11, 14) == 0x243185BE
    ensures Hex8(5, 5, 0, 12, 7, 13, 12, 3) == 0x550C7DC3
    ensures Hex8(7, 2, 11, 14, 5, 13, 7, 4) == 0x72BE5D74
    ensures Hex8(8, 0, 13, 14, 11, 1, 15, 14) == 0x80DEB1FE
    ensures Hex8(9, 11, 13, 12, 0, 6, 10, 7) == 0x9BDC06A7
    ensures Hex8(12, 1, 9, 11, 15, 1, 7, 4) == 0xC19BF174
  {
  }

  lemma Constants16()
    ensures Hex8(14, 4, 9, 11, 6, 9, 12, 1) == 0xE49B69C1
    ensures Hex8(14, 15, 11, 14, 4, 7, 8, 6) == 0xEFBE4786
    ensures Hex8(0, 15, 12, 1, 9, 13, 12, 6) == 0x0FC19DC6
    ensures Hex8(2, 4, 0, 12, 10, 1, 12, 12) == 0x240CA1CC
    ensures Hex8(2, 13, 14, 9, 2, 12, 6, 15) == 0x2DE92C6F
    ensures Hex8(4, 10, 7, 4, 8, 4, 10, 10) == 0x4A7484AA
    ensures Hex8(5, 12, 11, 0, 10, 9, 13, 12) == 0x5CB0A9DC
    ensures Hex8(7, 6, 15, 9, 8, 8, 13, 10) == 0x76F988DA
  {
  }

  lemma Constants24()
    ensures Hex8(9, 8, 3, 14, 5, 1, 5, 2) == 0x983E5152
    ensures Hex8(10, 8, 3, 1, 12, 6, 6, 13) == 0xA831C66D
    ensures Hex8(11, 0, 0, 3, 2, 7, 12, 8) == 0xB00327C8
    ensures Hex8(11, 15, 5, 9, 7, 15, 12, 7) == 0xBF597FC7
    ensures Hex8(12, 6, 14, 0, 0, 11, 15, 3) == 0xC6E00BF3
    ensures Hex8(13, 5, 10, 7, 9, 1, 4, 7) == 0xD5A79147
    ensures Hex8(0, 6, 12, 10, 6, 3, 5, 1) == 0x06CA6351
    ensures Hex8(1, 4, 2, 9, 2, 9, 6, 7) == 0x14292967
  {
  }

  lemma Constants32()
    ensures Hex8(2, 7, 11, 7, 0, 10, 8, 5) == 0x27B70A85
    ensures Hex8(2, 14, 1, 11, 2, 1, 3, 8) == 0x2E1B2138
    ensures Hex8(4, 13, 2, 12, 6, 13, 15, 12) == 0x4D2C6DFC
    ensures Hex8(5, 3, 3, 8, 0, 13, 1, 3) == 0x53380D13
    ensures Hex8(6, 5, 0, 10, 7, 3, 5, 4) == 0x650A7354
    ensures Hex8(7, 6, 6, 10, 0, 10, 11, 11) == 0x766A0ABB
    ensures Hex8(8, 1, 12, 2, 12, 9, 2, 14) == 0x81C2C92E
    ensures Hex8(9, 2, 7, 2, 2, 12, 8, 5) == 0x92722C85
  {
  }

  lemma Constants40()
    ensures Hex8(10, 2, 11, 15, 14, 8, 10, 1) == 0xA2BFE8A1
    ensures Hex8(10, 8, 1, 10, 6, 6, 4, 11) == 0xA81A664B
    ensures Hex8(12, 2, 4, 11, 8, 11, 7, 0) == 0xC24B8B70
    ensures Hex8(12, 7, 6, 12, 5, 1, 10, 3) == 0xC76C51A3
    ensures Hex8(13, 1, 9, 2, 14, 8, 1, 9) == 0xD192E819
    ensures Hex8(13, 6, 9, 9, 0, 6, 2, 4) == 0xD6990624
    ensures Hex8(15, 4, 0, 14, 3, 5, 8, 5) == 0xF40E3585
    ensures Hex8(1, 0, 6, 10, 10, 0, 7, 0) == 0x106AA070
  {
  }

  lemma Constants48()
    ensures Hex8(1, 9, 10, 4, 12, 1, 1, 6) == 0x19A4C116
    ensures Hex8(1, 14, 3, 7, 6, 12, 0, 8) == 0x1E376C08
    ensures Hex8(2, 7, 4, 8, 7, 7, 4, 12) == 0x2748774C
    ensures Hex8(3, 4, 11, 0, 11, 12, 11, 5) == 0x34B0BCB5
    ensures Hex8(3, 9, 1, 12, 0, 12, 11, 3) == 0x391C0CB3
    ensures Hex8(4, 14, 13, 8, 10, 10, 4, 10) == 0x4ED8AA4A
    ensures Hex8(5, 11, 9, 12, 12, 10, 4, 15) == 0x5B9CCA4F
    ensures Hex8(6, 8, 2, 14, 6, 15, 15, 3) == 0x682E6FF3
  {
  }

  lemma Constants56()
    ensures Hex8(7, 4, 8, 15, 8, 2, 14, 14) == 0x748F82EE
    ensures Hex8(7, 8, 10, 5, 6, 3, 6, 15) == 0x78A5636F
    ensures Hex8(8, 4, 12, 8, 7, 8, 1, 4) == 0x84C87814
    ensures Hex8(8, 12, 12, 7, 0, 2, 0, 8) == 0x8CC70208
    ensures Hex8(9, 0, 11, 14, 15, 15, 15, 10) == 0x90BEFFFA
    ensures Hex8(10, 4, 5, 0, 6, 12, 14, 11) == 0xA4506CEB
    ensures Hex8(11, 14, 15, 9, 10, 3, 15, 7) == 0xBEF9A3F7
    ensures Hex8(12, 6, 7, 1, 7, 8, 15, 2) == 0xC67178F2
  {
  }

  lemma InitialWords()
    ensures Hex8(6, 10, 0, 9, 14, 6, 6, 7) == 0x6A09E667
    ensures Hex8(11, 11, 6, 7, 10, 14, 8, 5) == 0xBB67AE85
    ensures Hex8(3, 12, 6, 14, 15, 3, 7, 2) == 0x3C6EF372
    ensures Hex8(10, 5, 4, 15, 15, 5, 3, 10) == 0xA54FF53A
    ensures Hex8(5, 1, 0, 14, 5, 2, 7, 15) == 0x510E527F
    ensures Hex8(9, 11, 0, 5, 6, 8, 8, 12) == 0x9B05688C
    ensures Hex8(1, 15, 8, 3, 13, 9, 10, 11) == 0x1F83D9AB
    ensures Hex8(5, 11, 14, 0, 12, 13, 1, 9) == 0x5BE0CD19
  {
  }

  lemma Sums()
    ensures Plus(0x6A09E667, 0x506E3058) == 0xBA7816BF
    ensures Plus(0xBB67AE85, 0xD39A2165) == 0x8F01CFEA
    ensures Plus(0x3C6EF372, 0x04D24D6C) == 0x414140DE
    ensures Plus(0xA54FF53A, 0xB85E2CE9) == 0x5DAE2223
    ensures Plus(0x510E527F, 0x5EF50F24) == 0xB00361A3
    ensures Plus(0x9B05688C, 0xFB121210) == 0x96177A9C
    ensures Plus(0x1F83D9AB, 0x948D25B6) == 0xB410FF61
    ensures Plus(0x5BE0CD19, 0x961F4894) == 0xF20015AD
  {
  }

  lemma ResultWords()
    ensures Hex8(11, 10, 7, 8, 1, 6, 11, 15) == 0xBA7816BF
    ensures Hex8(8, 15, 0, 1, 12, 15, 14, 10) == 0x8F01CFEA
    ensures Hex8(4, 1, 4, 1, 4, 0, 13, 14) == 0x414140DE
    ensures Hex8(5, 13, 10, 14, 2, 2, 2, 3) == 0x5DAE2223
    ensures Hex8(11, 0, 0, 3, 6, 1, 10, 3) == 0xB00361A3
    ensures Hex8(9, 6, 1, 7, 7, 10, 9, 12) == 0x96177A9C
    ensures Hex8(11, 4, 1, 0, 15, 15, 6, 1) == 0xB410FF61
    ensures Hex8(15, 2, 0, 0, 1, 5, 10, 13) == 0xF20015AD
  {
  }

  lemma BlockWords()
    ensures Hex8(6, 1, 6, 2, 6, 3, 8, 0) == 0x61626380 && Hex8(0, 0, 0, 0, 0, 0, 1, 8) == 0x18
    ensures Hex8(0, 0, 0, 0, 0, 0, 0, 0) == 0
  {
  }
}
