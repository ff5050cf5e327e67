/** Bit strings and 32-bit machine words: the same operations, in two notations. */
module MachineWords {
  import opened Bytes
  import opened BitStrings
  import opened WordFacts

  // ----- machine words that hold numbers

  /** The machine word that holds `v`, modulo 2^32. */
  function Machine(v: nat): bv32 { if v == 0 then 0 else Plus(Machine(v - 1), 1) }

  /** The machine word with these bits. */
  function Packed(bits: Bits): bv32 { Machine(Value(bits)) }

  lemma {:induction false} MachineAdd(v: nat, w: nat)
    ensures Machine(v + w) == Plus(Machine(v), Machine(w))
  {
    hide Plus;
    if w > 0 {
      MachineAdd(v, w - 1);
      PlusAssociates(Machine(v), Machine(w - 1), 1);
    } else {
      PlusAssociates(Machine(v), 0, 0);
    }
  }

  lemma MachineOne(p: bool)
    ensures Machine(if p then 1 else 0) == One(p)
  {
    assert Machine(0) == 0;
  }

  lemma PackedLast(bits: Bits)
    requires bits != []
    ensures Packed(bits) == Twice(Packed(bits[..|bits| - 1]), bits[|bits| - 1])
  {
    hide Plus, Machine, Twice, One;
    var v, p := Value(bits[..|bits| - 1]), bits[|bits| - 1];
    MachineAdd(v, v);
    MachineAdd(v + v, if p then 1 else 0);
    MachineOne(p);
    TwiceIsPlus(Machine(v), p);
  }

  // ----- powers of two

  function Doubled(n: nat): bv32 { if n == 0 then 1 else Twice(Doubled(n - 1), false) }

  lemma {:induction false} MachinePower(n: nat)
    ensures Machine(Power2(n)) == Doubled(n)
  {
    hide Plus, Twice, One;
    if n > 0 {
      MachinePower(n - 1);
      MachineAdd(Power2(n - 1), Power2(n - 1));
      TwiceIsPlus(Doubled(n - 1), false);
      ZeroBit(Doubled(n - 1));
    } else {
      MachineOne(true);
      IsOne();
    }
  }

  lemma ZeroBit(x: bv32)
    ensures Plus(Plus(x, x), One(false)) == Plus(x, x)
  {
  }

  lemma IsOne()
    ensures One(true) == 1
  {
  }

  lemma Doubled32()
    ensures Doubled(31) == 0x8000_0000 && Doubled(32) == 0
  {
    assert Doubled(8) == 0x100;
    assert Doubled(16) == 0x1_0000;
    assert Doubled(24) == 0x100_0000;
  }

  lemma Power2Of32()
    ensures Power2(32) == 0x1_0000_0000
  {
    assert Power2(8) == 256;
    Power2Add(8, 8);
    Power2Add(16, 16);
  }

  lemma {:induction false} MachineTimes(q: nat, v: nat)
    requires Machine(v) == 0
    ensures Machine(q * v) == 0
  {
    hide Plus;
    if q > 0 {
      MachineTimes(q - 1, v);
      MachineAdd((q - 1) * v, v);
      assert (q - 1) * v + v == q * v;
      PlusAssociates(0, 0, 0);
    }
  }

  /** Wrapping around changes nothing. */
  lemma MachineWraps(v: nat)
    ensures Machine(v % 0x1_0000_0000) == Machine(v)
  {
    hide Plus, Machine, Doubled, Power2;
    Power2Of32();
    MachinePower(32);
    Doubled32();
    var q, r := v / 0x1_0000_0000, v % 0x1_0000_0000;
    MachineTimes(q, 0x1_0000_0000);
    assert v == q * 0x1_0000_0000 + r;
    MachineAdd(q * 0x1_0000_0000, r);
    PlusAssociates(Machine(r), 0, 0);
  }

  // ----- the operations agree

  lemma PackedNumber(v: nat)
    requires v < 0x1_0000_0000
    ensures Packed(ToBits(v, 32)) == Machine(v)
  {
    hide ToBits, Value, Power2, Machine;
    Power2Of32();
    BitsRoundTrip(v, 32);
  }

  lemma PackedEmpty()
    ensures Packed([]) == 0
  {
  }

  lemma ZeroWord()
    ensures ExclusiveOr(0, 0) == 0 && Conjunction(0, 0xFFFF_FFFF) == 0 && Conjunction(0, 0) == 0
  {
  }

  lemma {:induction false} PackedXor(a: Bits, b: Bits)
    requires |a| == |b|
    ensures Packed(Xor(a, b)) == ExclusiveOr(Packed(a), Packed(b))
    decreases |a|
  {
    hide Packed, ExclusiveOr, Conjunction, Twice;
    if a == [] {
      assert Xor(a, b) == [];
      PackedEmpty();
      ZeroWord();
    } else {
      var n := |a| - 1;
      PackedXor(a[..n], b[..n]);
      PackedLast(a);
      PackedLast(b);
      PackedLast(Xor(a, b));
      assert Xor(a, b)[..n] == Xor(a[..n], b[..n]);
      BitwiseStep(Packed(a[..n]), Packed(b[..n]), a[n], b[n]);
    }
  }

  lemma {:induction false} PackedAnd(a: Bits, b: Bits)
    requires |a| == |b|
    ensures Packed(And(a, b)) == Conjunction(Packed(a), Packed(b))
    decreases |a|
  {
    hide Packed, ExclusiveOr, Conjunction, Twice;
    if a == [] {
      assert And(a, b) == [];
      PackedEmpty();
      ZeroWord();
    } else {
      var n := |a| - 1;
      PackedAnd(a[..n], b[..n]);
      PackedLast(a);
      PackedLast(b);
      PackedLast(And(a, b));
      assert And(a, b)[..n] == And(a[..n], b[..n]);
      BitwiseStep(Packed(a[..n]), Packed(b[..n]), a[n], b[n]);
    }
  }

  lemma {:induction false} NotSum(a: Bits)
    ensures Value(Not(a)) + Value(a) + 1 == Power2(|a|)
    decreases |a|
  {
    if a != [] {
      var n := |a| - 1;
      NotSum(a[..n]);
      assert Not(a)[..n] == Not(a[..n]);
    }
  }

  lemma PackedNot(a: Bits)
    requires |a| == 32
    ensures Packed(Not(a)) == Complement(Packed(a))
  {
    hide Value, Power2, Machine, Plus, Complement, Doubled, One;
    NotSum(a);
    MachineAdd(Value(Not(a)), Value(a));
    MachineAdd(Value(Not(a)) + Value(a), 1);
    MachineOne(true);
    IsOne();
    MachinePower(32);
    Doubled32();
    ComplementIs(Packed(Not(a)), Packed(a));
  }

  // ----- rotations and shifts, one place at a time

  /** The bits that a string of `n` bits leaves clear. */
  function Clear(n: nat): bv32 { if n == 0 then 0xFFFF_FFFF else Twice(Clear(n - 1), false) }

  lemma {:induction false} HighBitsClear(bits: Bits)
    ensures Conjunction(Packed(bits), Clear(|bits|)) == 0
    decreases |bits|
  {
    hide Packed, Conjunction, Twice;
    if bits == [] {
      PackedEmpty();
      ZeroWord();
    } else {
      var n := |bits| - 1;
      HighBitsClear(bits[..n]);
      PackedLast(bits);
      ClearStep(Packed(bits[..n]), Clear(n), bits[n]);
    }
  }

  lemma Clear31()
    ensures Clear(31) == 0x8000_0000
  {
    assert Clear(8) == 0xFFFF_FF00;
    assert Clear(16) == 0xFFFF_0000;
    assert Clear(24) == 0xFF00_0000;
  }

  lemma {:induction false} ValueFirst(bits: Bits)
    requires bits != []
    ensures Value(bits) == (if bits[0] then Power2(|bits| - 1) else 0) + Value(bits[1..])
    decreases |bits|
  {
    var n := |bits| - 1;
    if n > 0 {
      ValueFirst(bits[..n]);
      assert bits[..n][1..] == bits[1..][..n - 1] && bits[1..][n - 1] == bits[n];
    }
  }

  lemma PackedFirst(p: bool, front: Bits)
    requires |front| == 31
    ensures Packed([p] + front) == Plus(if p then 0x8000_0000 else 0, Packed(front))
  {
    hide Value, Power2, Doubled, Plus;
    assert ([p] + front)[1..] == front;
    ValueFirst([p] + front);
    MachinePower(31);
    Doubled32();
    MachineAdd(if p then Power2(31) else 0, Value(front));
  }

  function Turned(x: bv32, n: nat): bv32 { if n == 0 then x else Turn(Turned(x, n - 1)) }

  function Shifted(x: bv32, n: nat): bv32 { if n == 0 then x else Halved(Shifted(x, n - 1)) }

  lemma PackedTurn(x: Bits)
    requires |x| == 32
    ensures Packed([x[31]] + x[..31]) == Turn(Packed(x))
    ensures Packed([false] + x[..31]) == Halved(Packed(x))
  {
    hide Packed, Turn, Halved, Twice, Plus, Conjunction, Clear;
    PackedLast(x);
    HighBitsClear(x[..31]);
    Clear31();
    TurnStep(Packed(x[..31]), x[31]);
    PackedFirst(x[31], x[..31]);
    PackedFirst(false, x[..31]);
  }

  lemma {:induction false} PackedRotate(x: Bits, n: nat)
    requires |x| == 32 && n < 32
    ensures Packed(x[32 - n..] + x[..32 - n]) == Turned(Packed(x), n)
  {
    hide Packed, Turn;
    if n == 0 {
      assert x[32..] + x[..32] == x;
    } else {
      PackedRotate(x, n - 1);
      var y := x[33 - n..] + x[..33 - n];
      PackedTurn(y);
      assert y[31] == x[32 - n] && y[..31] == x[33 - n..] + x[..32 - n];
      assert [y[31]] + y[..31] == x[32 - n..] + x[..32 - n];
    }
  }

  lemma {:induction false} PackedShift(x: Bits, n: nat)
    requires |x| == 32 && n < 32
    ensures Packed(False(n) + x[..32 - n]) == Shifted(Packed(x), n)
  {
    hide Packed, Halved, Turn;
    if n == 0 {
      assert False(0) + x[..32] == x;
    } else {
      PackedShift(x, n - 1);
      var y := False(n - 1) + x[..33 - n];
      PackedTurn(y);
      assert y[..31] == False(n - 1) + x[..32 - n] && False(n) == [false] + False(n - 1);
      assert [false] + y[..31] == False(n) + x[..32 - n];
    }
  }

  lemma PackedSum(x: Bits, y: Bits)
    requires |x| == 32 && |y| == 32
    ensures Packed(ToBits((Value(x) + Value(y)) % 0x1_0000_0000, 32)) == Plus(Packed(x), Packed(y))
  {
    hide Value, ToBits, Machine, Plus;
    var v := Value(x) + Value(y);
    PackedNumber(v % 0x1_0000_0000);
    MachineWraps(v);
    MachineAdd(Value(x), Value(y));
  }

  // ----- packing loses nothing

  lemma LowBit(x: Bits)
    requires |x| == 32
    ensures x[31] <==> Conjunction(Packed(x), 1) == 1
  {
    hide Packed, Conjunction, Twice;
    PackedLast(x);
    LowBitOf(Packed(x[..31]), x[31]);
  }

  lemma PackedInjective(x: Bits, y: Bits)
    requires |x| == 32 && |y| == 32 && Packed(x) == Packed(y)
    ensures x == y
  {
    hide Packed, Turned, Conjunction;
    forall i | 0 <= i < 32
      ensures x[i] == y[i]
    {
      var n := 31 - i;
      PackedRotate(x, n);
      PackedRotate(y, n);
      LowBit(x[32 - n..] + x[..32 - n]);
      LowBit(y[32 - n..] + y[..32 - n]);
    }
  }

  // ----- numbers written out

  lemma SmallMachine(d: nat)
    requires d < 16
    ensures Machine(d) == Nibble(d)
  {
    assert Machine(4) == 4 && Machine(8) == 8 && Machine(12) == 12;
  }

  lemma OneMoreDigit(v: nat, d: nat)
    requires d < 16
    ensures Machine(16 * v + d) == ShiftFour(Machine(v), Nibble(d))
  {
    hide Nibble, Machine, Plus, ShiftFour;
    MachineAdd(v, v);
    MachineAdd(2 * v, 2 * v);
    MachineAdd(4 * v, 4 * v);
    MachineAdd(8 * v, 8 * v);
    MachineAdd(16 * v, d);
    SmallMachine(d);
    ShiftFourIs(Machine(v), Nibble(d));
  }

  /** The number with these hexadecimal digits. */
  function Spelled(a: nat, b: nat, c: nat, d: nat, e: nat, f: nat, g: nat, h: nat): nat {
    16 * (16 * (16 * (16 * (16 * (16 * (16 * a + b) + c) + d) + e) + f) + g) + h
  }

  lemma SpelledWord(a: nat, b: nat, c: nat, d: nat, e: nat, f: nat, g: nat, h: nat)
    requires a < 16 && b < 16 && c < 16 && d < 16 && e < 16 && f < 16 && g < 16 && h < 16
    ensures Spelled(a, b, c, d, e, f, g, h) < 0x1_0000_0000
    ensures Packed(ToBits(Spelled(a, b, c, d, e, f, g, h), 32))
         == Hex8(Nibble(a), Nibble(b), Nibble(c), Nibble(d), Nibble(e), Nibble(f), Nibble(g), Nibble(h))
  {
    hide Nibble, Machine, ShiftFour, Packed, ToBits;
    SmallMachine(a);
    var v := 16 * a + b;
    OneMoreDigit(a, b);
    OneMoreDigit(v, c);
    v := 16 * v + c;
    OneMoreDigit(v, d);
    v := 16 * v + d;
    OneMoreDigit(v, e);
    v := 16 * v + e;
    OneMoreDigit(v, f);
    v := 16 * v + f;
    OneMoreDigit(v, g);
    v := 16 * v + g;
    OneMoreDigit(v, h);
    PackedNumber(16 * v + h);
  }
}
