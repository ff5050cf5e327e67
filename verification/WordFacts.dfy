/** Facts about 32-bit machine words that need nothing but bits. */
module WordFacts {

  function One(b: bool): bv32 { if b then 1 else 0 }

  function Plus(x: bv32, y: bv32): bv32 { x + y }

  /** `x` with `p` shifted in from the right. */
  function Twice(x: bv32, p: bool): bv32 { ShiftIn(x, One(p)) }

  function ShiftIn(x: bv32, p: bv32): bv32 { (x << 1) | p }

  function ExclusiveOr(x: bv32, y: bv32): bv32 { x ^ y }

  function Conjunction(x: bv32, y: bv32): bv32 { x & y }

  function Complement(x: bv32): bv32 { !x }

  function Halved(x: bv32): bv32 { x >> 1 }

  function Turn(x: bv32): bv32 { (x >> 1) | (x << 31) }

  lemma PlusAssociates(x: bv32, y: bv32, z: bv32)
    ensures Plus(Plus(x, y), z) == Plus(x, Plus(y, z)) && Plus(x, y) == Plus(y, x) && Plus(x, 0) == x
  {
  }

  lemma TwiceIsPlus(x: bv32, p: bool)
    ensures Twice(x, p) == Plus(Plus(x, x), One(p))
  {
  }

  lemma BitwiseStep(x: bv32, y: bv32, p: bool, q: bool)
    ensures ExclusiveOr(Twice(x, p), Twice(y, q)) == Twice(ExclusiveOr(x, y), p != q)
    ensures Conjunction(Twice(x, p), Twice(y, q)) == Twice(Conjunction(x, y), p && q)
  {
    hide ExclusiveOr, Conjunction, ShiftIn;
    OneAndOne(x, y);
    OneAndZero(x, y);
    ZeroAndOne(x, y);
    ZeroAndZero(x, y);
  }

  lemma OneAndOne(x: bv32, y: bv32)
    ensures ExclusiveOr(ShiftIn(x, 1), ShiftIn(y, 1)) == ShiftIn(ExclusiveOr(x, y), 0)
    ensures Conjunction(ShiftIn(x, 1), ShiftIn(y, 1)) == ShiftIn(Conjunction(x, y), 1)
  {
  }

  lemma OneAndZero(x: bv32, y: bv32)
    ensures ExclusiveOr(ShiftIn(x, 1), ShiftIn(y, 0)) == ShiftIn(ExclusiveOr(x, y), 1)
    ensures Conjunction(ShiftIn(x, 1), ShiftIn(y, 0)) == ShiftIn(Conjunction(x, y), 0)
  {
  }

  lemma Commutes(x: bv32, y: bv32)
    ensures ExclusiveOr(x, y) == ExclusiveOr(y, x) && Conjunction(x, y) == Conjunction(y, x)
  {
  }

  lemma ZeroAndOne(x: bv32, y: bv32)
    ensures ExclusiveOr(ShiftIn(x, 0), ShiftIn(y, 1)) == ShiftIn(ExclusiveOr(x, y), 1)
    ensures Conjunction(ShiftIn(x, 0), ShiftIn(y, 1)) == ShiftIn(Conjunction(x, y), 0)
  {
    hide ExclusiveOr, Conjunction, ShiftIn;
    OneAndZero(y, x);
    Commutes(x, y);
    Commutes(ShiftIn(x, 0), ShiftIn(y, 1));
  }

  lemma NothingIn(x: bv32)
    ensures ShiftIn(x, 0) == x << 1
  {
  }

  lemma ShiftedXor(x: bv32, y: bv32)
    ensures (x << 1) ^ (y << 1) == (x ^ y) << 1
  {
  }

  lemma ShiftedAnd(x: bv32, y: bv32)
    ensures (x << 1) & (y << 1) == (x & y) << 1
  {
  }

  lemma ZeroAndZero(x: bv32, y: bv32)
    ensures ExclusiveOr(ShiftIn(x, 0), ShiftIn(y, 0)) == ShiftIn(ExclusiveOr(x, y), 0)
    ensures Conjunction(ShiftIn(x, 0), ShiftIn(y, 0)) == ShiftIn(Conjunction(x, y), 0)
  {
    hide ShiftIn;
    NothingIn(x);
    NothingIn(y);
    NothingIn(x ^ y);
    NothingIn(x & y);
    ShiftedXor(x, y);
    ShiftedAnd(x, y);
  }

  lemma ComplementIs(x: bv32, y: bv32)
    requires Plus(Plus(x, y), 1) == 0
    ensures x == Complement(y)
  {
  }

  lemma ClearStep(x: bv32, high: bv32, p: bool)
    requires Conjunction(x, high) == 0
    ensures Conjunction(Twice(x, p), Twice(high, false)) == 0
  {
  }

  lemma TurnStep(f: bv32, p: bool)
    requires Conjunction(f, 0x8000_0000) == 0
    ensures Turn(Twice(f, p)) == Plus(if p then 0x8000_0000 else 0, f)
    ensures Halved(Twice(f, p)) == f && Plus(0, f) == f
  {
  }

  lemma LowBitOf(f: bv32, p: bool)
    ensures p <==> Conjunction(Twice(f, p), 1) == 1
  {
  }

  function ShiftFour(x: bv32, d: bv32): bv32 { (x << 4) + d }

  lemma ShiftFourIs(x: bv32, d: bv32)
    ensures var x2 := Plus(x, x);
      var x4 := Plus(x2, x2);
      var x8 := Plus(x4, x4);
      ShiftFour(x, d) == Plus(Plus(x8, x8), d)
  {
    PlusSelf(x);
    PlusSelf(x << 1);
    PlusSelf(x << 2);
    PlusSelf(x << 3);
    hide Plus;
    ShiftsAdd(x);
    ShiftFourPlus(x, d);
  }

  lemma PlusSelf(x: bv32)
    ensures Plus(x, x) == x << 1
  {
  }

  lemma ShiftsAdd(x: bv32)
    ensures (x << 1) << 1 == x << 2 && (x << 2) << 1 == x << 3 && (x << 3) << 1 == x << 4
  {
  }

  lemma ShiftFourPlus(x: bv32, d: bv32)
    ensures ShiftFour(x, d) == Plus(x << 4, d)
  {
  }

  function Nibble(d: nat): bv32
    requires d < 16
  {
    if d == 0 then 0 else if d == 1 then 1 else if d == 2 then 2 else if d == 3 then 3
    else if d == 4 then 4 else if d == 5 then 5 else if d == 6 then 6 else if d == 7 then 7
    else if d == 8 then 8 else if d == 9 then 9 else if d == 10 then 10 else if d == 11 then 11
    else if d == 12 then 12 else if d == 13 then 13 else if d == 14 then 14 else 15
  }

  lemma Nibbles()
    ensures Nibble(0) == 0 && Nibble(1) == 1 && Nibble(2) == 2 && Nibble(3) == 3
    ensures Nibble(4) == 4 && Nibble(5) == 5 && Nibble(6) == 6 && Nibble(7) == 7
    ensures Nibble(8) == 8 && Nibble(9) == 9 && Nibble(10) == 10 && Nibble(11) == 11
    ensures Nibble(12) == 12 && Nibble(13) == 13 && Nibble(14) == 14 && Nibble(15) == 15
  {
  }

  /** The machine word with these hexadecimal digits. */
  function Hex8(a: bv32, b: bv32, c: bv32, d: bv32, e: bv32, f: bv32, g: bv32, h: bv32): bv32 {
    var front := ShiftFour(ShiftFour(ShiftFour(a, b), c), d);
    ShiftFour(ShiftFour(ShiftFour(ShiftFour(front, e), f), g), h)
  }
}
