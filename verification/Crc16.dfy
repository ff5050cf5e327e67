/**
 * The bitwise CRC-16/XMODEM of the staging engine: polynomial 0x1021, zero start, no reflection.
 * A sixteen-bit register is its string of bits, most significant first.
 */
module Crc16 {
  import opened Bytes
  import opened BitStrings

  type Word = w: seq<bool> | |w| == 16 witness False(16)

  const ZERO: Word := False(16)

  /** 0x1021 */
  const POLYNOMIAL: Word :=
    [false, false, false, true, false, false, false, false,
     false, false, true, false, false, false, false, true]

  /** One turn of the inner loop. */
  function Shift(crc: Word): Word {
    var shifted := crc[1..] + [false];
    if crc[0] then Xor(shifted, POLYNOMIAL) else shifted
  }

  function Shifts(crc: Word, n: nat): Word {
    if n == 0 then crc else Shift(Shifts(crc, n - 1))
  }

  /** A byte moved into the high half of a word. */
  function High(b: byte): Word { ToBits(b, 8) + False(8) }

  function Absorb(crc: Word, b: byte): Word {
    Shifts(Xor(crc, High(b)), 8)
  }

  function Crc(crc: Word, data: seq<byte>): Word
    decreases |data|
  {
    if data == [] then crc else Crc(Absorb(crc, data[0]), data[1..])
  }

  /** `crc16Update`: the register is updated byte by byte and bit by bit. */
  method Update(crc: Word, data: seq<byte>) returns (result: Word)
    ensures result == Crc(crc, data)
  {
    result := crc;
    var i := 0;
    while i < |data|
      invariant 0 <= i <= |data|
      invariant Crc(result, data[i..]) == Crc(crc, data)
    {
      ghost var start := Xor(result, High(data[i]));
      result := Xor(result, High(data[i]));
      var bit := 0;
      while bit < 8
        invariant 0 <= bit <= 8
        invariant result == Shifts(start, bit)
      {
        result := if result[0] then Xor(result[1..] + [false], POLYNOMIAL) else result[1..] + [false];
        bit := bit + 1;
      }
      assert data[i..][1..] == data[i + 1..];
      i := i + 1;
    }
  }

  /** Feeding two chunks in turn equals feeding their concatenation. */
  lemma {:induction false} Composes(crc: Word, xs: seq<byte>, ys: seq<byte>)
    ensures Crc(crc, xs + ys) == Crc(Crc(crc, xs), ys)
    decreases |xs|
  {
    if xs == [] {
      assert xs + ys == ys;
    } else {
      assert (xs + ys)[1..] == xs[1..] + ys;
      Composes(Absorb(crc, xs[0]), xs[1..], ys);
    }
  }

  // ----- bytes and bits

  /** Exclusive or of two bytes. */
  function XorByte(a: byte, b: byte): byte {
    ValueRoundTrip(Xor(ToBits(a, 8), ToBits(b, 8)));
    assert Power2(8) == 256;
    Value(Xor(ToBits(a, 8), ToBits(b, 8)))
  }

  function XorBytes(xs: seq<byte>, ys: seq<byte>): (zs: seq<byte>)
    requires |xs| == |ys|
    ensures |zs| == |xs|
  {
    seq<byte>(|xs|, i requires 0 <= i < |xs| => XorByte(xs[i], ys[i]))
  }

  lemma HighInjective(a: byte, b: byte)
    requires High(a) == High(b)
    ensures a == b
  {
    assert ToBits(a, 8) == High(a)[..8] && ToBits(b, 8) == High(b)[..8];
    assert Power2(8) == 256;
    BitsRoundTrip(a, 8);
    BitsRoundTrip(b, 8);
  }

  lemma HighXor(a: byte, b: byte)
    ensures High(XorByte(a, b)) == Xor(High(a), High(b))
  {
    ValueRoundTrip(Xor(ToBits(a, 8), ToBits(b, 8)));
  }

  // ----- the one-bit step is a linear bijection

  lemma ShiftLinear(a: Word, b: Word)
    ensures Shift(Xor(a, b)) == Xor(Shift(a), Shift(b))
  {
    assert (Xor(a, b))[1..] + [false] == Xor(a[1..] + [false], b[1..] + [false]);
  }

  lemma ShiftInjective(a: Word, b: Word)
    requires Shift(a) == Shift(b)
    ensures a == b
  {
    assert Shift(a)[15] == a[0] && Shift(b)[15] == b[0];
    forall j | 0 < j < 16
      ensures a[j] == b[j]
    {
      assert (a[1..] + [false])[j - 1] == a[j] && (b[1..] + [false])[j - 1] == b[j];
      assert Shift(a)[j - 1] == Shift(b)[j - 1];
    }
  }

  /** The value that one step maps to `crc`. */
  function Unshift(crc: Word): Word {
    [crc[15]] + (if crc[15] then Xor(crc, POLYNOMIAL) else crc)[..15]
  }

  /** The one-bit step is a bijection on sixteen-bit values. */
  lemma ShiftBijective(crc: Word)
    ensures Shift(Unshift(crc)) == crc
    ensures Unshift(Shift(crc)) == crc
  {
    assert Shift(Unshift(crc)) == crc;
    assert Shift(Unshift(Shift(crc))) == Shift(crc) by {
      var c := Shift(crc);
      assert Shift(Unshift(c)) == c;
    }
    ShiftInjective(Unshift(Shift(crc)), crc);
  }

  lemma {:induction false} ShiftsLinear(a: Word, b: Word, n: nat)
    ensures Shifts(Xor(a, b), n) == Xor(Shifts(a, n), Shifts(b, n))
  {
    if n > 0 {
      ShiftsLinear(a, b, n - 1);
      ShiftLinear(Shifts(a, n - 1), Shifts(b, n - 1));
    }
  }

  lemma {:induction false} ShiftsInjective(a: Word, b: Word, n: nat)
    requires Shifts(a, n) == Shifts(b, n)
    ensures a == b
  {
    if n > 0 {
      ShiftInjective(Shifts(a, n - 1), Shifts(b, n - 1));
      ShiftsInjective(a, b, n - 1);
    }
  }

  // ----- linearity and error detection

  /** The checksum is linear over XOR; from a zero start it is a homomorphism. */
  lemma {:induction false} Linear(a: Word, b: Word, xs: seq<byte>, ys: seq<byte>)
    requires |xs| == |ys|
    ensures Crc(Xor(a, b), XorBytes(xs, ys)) == Xor(Crc(a, xs), Crc(b, ys))
    decreases |xs|
  {
    if xs != [] {
      var hx, hy := High(xs[0]), High(ys[0]);
      HighXor(xs[0], ys[0]);
      assert Xor(Xor(a, b), Xor(hx, hy)) == Xor(Xor(a, hx), Xor(b, hy));
      ShiftsLinear(Xor(a, hx), Xor(b, hy), 8);
      assert XorBytes(xs, ys)[1..] == XorBytes(xs[1..], ys[1..]);
      Linear(Absorb(a, xs[0]), Absorb(b, ys[0]), xs[1..], ys[1..]);
    }
  }

  /** Registers that differ stay different, whatever bytes follow. */
  lemma {:induction false} DifferencePersists(a: Word, b: Word, data: seq<byte>)
    requires a != b
    ensures Crc(a, data) != Crc(b, data)
    decreases |data|
  {
    if data != [] {
      if Absorb(a, data[0]) == Absorb(b, data[0]) {
        ShiftsInjective(Xor(a, High(data[0])), Xor(b, High(data[0])), 8);
        XorCancel(a, b, High(data[0]));
      }
      DifferencePersists(Absorb(a, data[0]), Absorb(b, data[0]), data[1..]);
    }
  }

  /** Steps that see only clear bits on top just move the word. */
  lemma {:induction false} ClearBitsMove(low: Bits, n: nat)
    requires |low| == 8 && n <= 8
    ensures Shifts(False(8) + low, n) == (False(8) + low)[n..] + False(n)
  {
    if n > 0 {
      ClearBitsMove(low, n - 1);
      var before := (False(8) + low)[n - 1..] + False(n - 1);
      assert !before[0];
      assert before[1..] + [false] == (False(8) + low)[n..] + False(n);
    }
  }

  /** Two bytes act like one sixteen-bit word that is pushed through sixteen steps. */
  lemma TwoByteWord(crc: Word, a: byte, b: byte)
    ensures Absorb(Absorb(crc, a), b) == Shifts(Shifts(Xor(crc, ToBits(a, 8) + ToBits(b, 8)), 8), 8)
  {
    var low := False(8) + ToBits(b, 8);
    ClearBitsMove(ToBits(b, 8), 8);
    assert Shifts(low, 8) == High(b);
    ShiftsLinear(Xor(crc, High(a)), low, 8);
    assert Xor(Xor(crc, High(a)), low) == Xor(crc, ToBits(a, 8) + ToBits(b, 8));
  }

  lemma TwoBytesDetected(crc: Word, a: byte, b: byte, a': byte, b': byte)
    requires a != a' || b != b'
    ensures Absorb(Absorb(crc, a), b) != Absorb(Absorb(crc, a'), b')
  {
    TwoByteWord(crc, a, b);
    TwoByteWord(crc, a', b');
    var w, w' := ToBits(a, 8) + ToBits(b, 8), ToBits(a', 8) + ToBits(b', 8);
    if Absorb(Absorb(crc, a), b) == Absorb(Absorb(crc, a'), b') {
      ShiftsInjective(Shifts(Xor(crc, w), 8), Shifts(Xor(crc, w'), 8), 8);
      ShiftsInjective(Xor(crc, w), Xor(crc, w'), 8);
      XorCancel(w, w', crc);
      assert ToBits(a, 8) == w[..8] && ToBits(b, 8) == w[8..];
      assert ToBits(a', 8) == w'[..8] && ToBits(b', 8) == w'[8..];
      HighInjective(a, a');
      HighInjective(b, b');
    }
  }

  lemma OneByteDetected(crc: Word, a: byte, b: byte)
    requires a != b
    ensures Absorb(crc, a) != Absorb(crc, b)
  {
    if Absorb(crc, a) == Absorb(crc, b) {
      ShiftsInjective(Xor(crc, High(a)), Xor(crc, High(b)), 8);
      XorCancel(High(a), High(b), crc);
      HighInjective(a, b);
    }
  }

  /** Two byte strings that differ only within two adjacent bytes never have the same checksum. */
  lemma {:induction false} AdjacentErrorsDetected(crc: Word, xs: seq<byte>, ys: seq<byte>, k: nat)
    requires |xs| == |ys| && xs != ys
    requires forall i | 0 <= i < |xs| && i != k && i != k + 1 :: xs[i] == ys[i]
    ensures Crc(crc, xs) != Crc(crc, ys)
    decreases |xs|
  {
    if xs[0] == ys[0] {
      assert xs == [xs[0]] + xs[1..] && ys == [ys[0]] + ys[1..];
      AdjacentErrorsDetected(Absorb(crc, xs[0]), xs[1..], ys[1..], if k == 0 then 0 else k - 1);
    } else if |xs| == 1 {
      OneByteDetected(crc, xs[0], ys[0]);
    } else {
      TwoBytesDetected(crc, xs[0], xs[1], ys[0], ys[1]);
      assert xs[1..][1..] == xs[2..] && ys[1..][1..] == ys[2..] && xs[2..] == ys[2..];
      DifferencePersists(Absorb(Absorb(crc, xs[0]), xs[1]), Absorb(Absorb(crc, ys[0]), ys[1]), xs[2..]);
    }
  }

  // ----- the checksum is the remainder of a polynomial division

  /** Long division over GF(2): strike out the leading bit, subtracting the divisor x^16 + 0x1021 if it is set. */
  function Remainder(bits: Bits): Word
    requires |bits| >= 16
    decreases |bits|
  {
    if |bits| == 16 then bits
    else if bits[0] then Remainder(Xor(bits[1..17], POLYNOMIAL) + bits[17..])
    else Remainder(bits[1..])
  }

  lemma DivisionStep(w: Word, y: Bits)
    requires y != []
    ensures Remainder(w + y) == Remainder(Xor(Shift(w), False(15) + [y[0]]) + y[1..])
  {
    var bits := w + y;
    var window := w[1..] + [y[0]];
    assert bits[1..17] == window && bits[17..] == y[1..] && bits[1..] == window + y[1..];
    assert Xor(Shift(w), False(15) + [y[0]]) == if w[0] then Xor(window, POLYNOMIAL) else window;
  }

  lemma {:induction false} DivisionSteps(w: Word, y: Bits, n: nat)
    requires n <= 8 && n <= |y|
    ensures Remainder(w + y) == Remainder(Xor(Shifts(w, n), False(16 - n) + y[..n]) + y[n..])
  {
    if n == 0 {
      assert Xor(w, False(16) + y[..0]) + y[0..] == w + y;
    } else {
      DivisionSteps(w, y, n - 1);
      var seen := False(17 - n) + y[..n - 1];
      var v := Xor(Shifts(w, n - 1), seen);
      DivisionStep(v, y[n - 1..]);
      ShiftLinear(Shifts(w, n - 1), seen);
      assert seen[1..] + [false] == False(16 - n) + y[..n - 1] + [false];
      assert Xor(Shift(v), False(15) + [y[n - 1]]) == Xor(Shifts(w, n), False(16 - n) + y[..n]);
      assert y[n - 1..][1..] == y[n..];
    }
  }

  /** The register, added onto the bits still to come, leaves the same remainder. */
  lemma {:induction false} CrcIsRemainderFrom(crc: Word, data: seq<byte>)
    ensures var stream := Stream(data) + False(16);
      Crc(crc, data) == Remainder(Xor(crc, stream[..16]) + stream[16..])
    decreases |data|
  {
    var stream := Stream(data) + False(16);
    if data == [] {
      assert Xor(crc, stream[..16]) + stream[16..] == crc;
    } else {
      var rest := Stream(data[1..]) + False(16);
      assert stream == ToBits(data[0], 8) + rest;
      var w, y := Xor(crc, stream[..16]), rest[8..];
      assert stream[16..] == y;
      DivisionSteps(w, y, 8);
      var low := False(8) + rest[..8];
      ClearBitsMove(rest[..8], 8);
      ShiftsLinear(Xor(crc, High(data[0])), low, 8);
      assert Xor(Xor(crc, High(data[0])), low) == w;
      assert Shifts(low, 8) == rest[..8] + False(8);
      assert Xor(Shifts(w, 8), False(8) + y[..8]) == Xor(Absorb(crc, data[0]), rest[..16]);
      assert y[8..] == rest[16..];
      CrcIsRemainderFrom(Absorb(crc, data[0]), data[1..]);
    }
  }

  /** The checksum of a message is what long division of the message, shifted up by sixteen bits, leaves. */
  lemma CrcIsDivided(data: seq<byte>)
    ensures Crc(ZERO, data) == Remainder(Stream(data) + False(16))
  {
    var stream := Stream(data) + False(16);
    CrcIsRemainderFrom(ZERO, data);
    assert Xor(ZERO, stream[..16]) + stream[16..] == stream;
  }

  /** x^16 + x^12 + x^5 + 1 */
  const DIVISOR: Bits := [true] + POLYNOMIAL

  /** The product of two polynomials over GF(2), highest coefficient first. */
  function Times(a: Bits, b: Bits): (c: Bits)
    requires b != []
    ensures |c| == |a| + |b| - 1
  {
    if a == [] then False(|b| - 1)
    else Xor((if a[0] then b else False(|b|)) + False(|a| - 1), [false] + Times(a[1..], b))
  }

  /** `bits` is `q` times the divisor plus `r`. */
  predicate Divides(bits: Bits, q: Bits, r: Word) {
    |bits| == |q| + 16 && bits == Xor(Times(q, DIVISOR), False(|q|) + r)
  }

  /** The bits that long division goes on with. */
  function Struck(bits: Bits): (rest: Bits)
    requires |bits| > 16
    ensures |rest| == |bits| - 1
  {
    if bits[0] then Xor(bits[1..17], POLYNOMIAL) + bits[17..] else bits[1..]
  }

  lemma StruckIs(bits: Bits)
    requires |bits| > 16
    ensures [false] + Struck(bits) == Xor(bits, (if bits[0] then DIVISOR else False(17)) + False(|bits| - 17))
  {
    var divisor := (if bits[0] then DIVISOR else False(17)) + False(|bits| - 17);
    forall i | 0 <= i < |bits|
      ensures ([false] + Struck(bits))[i] == (bits[i] != divisor[i])
    {
      if bits[0] && 0 < i < 17 {
        assert divisor[i] == POLYNOMIAL[i - 1];
      }
    }
  }

  lemma XorMoves(x: Bits, a: Bits, b: Bits, c: Bits)
    requires |x| == |a| == |b| == |c|
    ensures x == Xor(Xor(a, b), c) <==> Xor(x, a) == Xor(b, c)
  {
    if Xor(x, a) == Xor(b, c) {
      forall i | 0 <= i < |x| ensures x[i] == Xor(Xor(a, b), c)[i] {
        assert Xor(x, a)[i] == Xor(b, c)[i];
      }
    }
  }

  lemma XorBehindFalse(s: Bits, a: Bits, b: Bits)
    requires |s| == |a| == |b|
    ensures [false] + s == Xor([false] + a, [false] + b) <==> s == Xor(a, b)
  {
    assert Xor([false] + a, [false] + b) == [false] + Xor(a, b);
    assert ([false] + s)[1..] == s && ([false] + Xor(a, b))[1..] == Xor(a, b);
  }

  /** Striking out the leading bit takes the leading bit off the quotient and leaves the remainder. */
  lemma DivideStep(bits: Bits, q: Bits, r: Word)
    requires |bits| == |q| + 16 && q != [] && bits[0] == q[0]
    ensures Divides(bits, q, r) <==> Divides(Struck(bits), q[1..], r)
  {
    hide Xor, Struck;
    var lead := (if q[0] then DIVISOR else False(17)) + False(|q| - 1);
    var product, low := Times(q[1..], DIVISOR), False(|q| - 1) + r;
    assert False(|q|) + r == [false] + low;
    StruckIs(bits);
    XorMoves(bits, lead, [false] + product, [false] + low);
    XorBehindFalse(Struck(bits), product, low);
  }

  lemma LeadingBits(bits: Bits, q: Bits, r: Word)
    requires Divides(bits, q, r) && q != []
    ensures bits[0] == q[0]
  {
  }

  lemma RemainderStep(bits: Bits)
    requires |bits| > 16
    ensures Remainder(bits) == Remainder(Struck(bits))
  {
  }

  lemma {:induction false} DivisionIsExact(bits: Bits) returns (q: Bits)
    requires |bits| >= 16
    ensures Divides(bits, q, Remainder(bits))
    decreases |bits|
  {
    if |bits| == 16 {
      q := [];
    } else {
      hide Divides, Remainder, Struck;
      var rest := DivisionIsExact(Struck(bits));
      q := [bits[0]] + rest;
      assert q[1..] == rest;
      DividesLength(Struck(bits), rest, Remainder(Struck(bits)));
      RemainderStep(bits);
      DivideStep(bits, q, Remainder(bits));
    }
  }

  lemma DividesLength(bits: Bits, q: Bits, r: Word)
    requires Divides(bits, q, r)
    ensures |bits| == |q| + 16
  {
    hide Times, Xor;
  }

  lemma {:induction false} RemainderIsUnique(bits: Bits, q: Bits, r: Word)
    requires Divides(bits, q, r)
    ensures |bits| >= 16 && r == Remainder(bits)
    decreases |q|
  {
    if q != [] {
      hide Divides, Remainder, Struck;
      DividesLength(bits, q, r);
      LeadingBits(bits, q, r);
      DivideStep(bits, q, r);
      RemainderIsUnique(Struck(bits), q[1..], r);
      RemainderStep(bits);
    }
  }

  /**
   * The checksum of a message is the one word that differs from the message times x^16 by a multiple of
   * x^16 + x^12 + x^5 + 1.
   */
  lemma CrcIsRemainder(data: seq<byte>, r: Word)
    ensures (exists q :: Divides(Stream(data) + False(16), q, r)) <==> r == Crc(ZERO, data)
  {
    hide Divides, Remainder;
    var bits := Stream(data) + False(16);
    CrcIsDivided(data);
    var q := DivisionIsExact(bits);
    forall q' | Divides(bits, q', r)
      ensures r == Remainder(bits)
    {
      RemainderIsUnique(bits, q', r);
    }
  }
}
