/** Printing numbers and reading them back: `printNumber`, `print(long)` and `parseInt`. */
module NumberText {
  import opened Bytes
  import opened BitStrings
  import opened TextSplit

  const INT32_MAX: int := 0x7FFF_FFFF

  /** A digit, or a letter from ten on; the sum is cut to a `char`. */
  function Digit(d: nat): char {
    if d < 10 then (d + 48) as char else ((d + 55) % 256) as char
  }

  function Numeral(n: nat, base: nat): (text: string)
    requires base >= 2
    ensures text != ""
    decreases n
  {
    if n < base then [Digit(n)]
    else
      Shrinks(n, base);
      Numeral(n / base, base) + [Digit(n % base)]
  }

  lemma Shrinks(n: nat, base: nat)
    requires n >= base >= 2
    ensures 0 < n / base <= n / 2 < n
  {
    var q := n / base;
    assert n == base * q + n % base;
    assert base * q >= 2 * q by { MulMonotone(2, base, q); }
  }

  lemma MulMonotone(a: nat, b: nat, c: nat)
    requires a <= b
    ensures a * c <= b * c
  {
  }

  /** A number below 2^bits needs at most `bits` digits, whatever the base. */
  lemma {:induction false} NumeralLength(n: nat, base: nat, bits: nat)
    requires base >= 2 && bits >= 1 && n < Power2(bits)
    ensures |Numeral(n, base)| <= bits
    decreases n
  {
    if n >= base {
      Shrinks(n, base);
      assert bits > 1 by {
        assert Power2(1) == 2;
      }
      NumeralLength(n / base, base, bits - 1);
    }
  }

  const NUL: char := 0 as char

  /** A C string ends at its first NUL. */
  function CText(s: string): string { s[..PartEnd(s, 0, NUL)] }

  lemma CTextWhole(s: string)
    ensures CText(s) == s <==> NUL !in s
  {
    if CText(s) == s {
      assert s[0..PartEnd(s, 0, NUL)] == s;
    }
  }

  /** The digit 201 is printed as a NUL. */
  lemma {:induction false} NulDigit(n: nat, base: nat)
    requires 2 <= base <= 201
    ensures NUL !in Numeral(n, base)
    decreases n
  {
    if n >= base {
      Shrinks(n, base);
      NulDigit(n / base, base);
    }
  }

  /** Every number is printed in full if and only if the base is at most 201. */
  lemma PrintedInFull(base: nat)
    requires 2 <= base < 256
    ensures (forall n: uint32 :: CText(Numeral(n, base)) == Numeral(n, base)) <==> base <= 201
  {
    hide CText, Numeral;
    if base <= 201 {
      forall n: uint32
        ensures CText(Numeral(n, base)) == Numeral(n, base)
      {
        NulDigit(n, base);
        CTextWhole(Numeral(n, base));
      }
    } else {
      NulIsPrinted(base);
      CTextWhole(Numeral(201, base));
      assert CText(Numeral(201, base)) != Numeral(201, base);
    }
  }

  lemma NulIsPrinted(base: nat)
    requires base > 201
    ensures NUL in Numeral(201, base)
  {
    assert Numeral(201, base) == [NUL];
  }

  /** `printNumber`: the digits fill a 33-byte buffer from its end, and are written up to the first NUL. */
  method PrintNumber(n: uint32, base: byte) returns (text: string)
    ensures var radix := if base < 2 then 10 else base;
      text == CText(Numeral(n, radix)) && (radix <= 201 ==> text == Numeral(n, radix))
  {
    hide Digit, Numeral, CText;
    var radix: nat := if base < 2 then 10 else base;
    var buf := new char[33];
    var str := 32;
    buf[str] := NUL;
    var rest: nat := n;
    NumeralFits(n, radix);
    while true
      invariant 0 < str <= 32 && |Numeral(rest, radix)| <= str
      invariant Numeral(n, radix) == Numeral(rest, radix) + buf[str..32]
      decreases rest
    {
      var m := rest;
      LastDigit(m, radix);
      rest := rest / radix;
      var c := m - radix * rest;
      ghost var done := buf[str..32];
      str := str - 1;
      buf[str] := Digit(c);
      assert buf[str..32] == [Digit(c)] + done;
      if rest == 0 {
        break;
      }
    }
    text := CText(buf[str..32]);
    if radix <= 201 {
      NulDigit(n, radix);
      CTextWhole(Numeral(n, radix));
    }
  }

  lemma NumeralFits(n: uint32, base: nat)
    requires base >= 2
    ensures |Numeral(n, base)| <= 32
  {
    assert Power2(8) == 256;
    Power2Add(8, 8);
    Power2Add(16, 16);
    NumeralLength(n, base, 32);
  }

  /** Splitting off the last digit. */
  lemma LastDigit(m: nat, base: nat)
    requires base >= 2
    ensures var q := m / base;
      && 0 <= m - base * q < base
      && (q == 0 ==> Numeral(m, base) == [Digit(m - base * q)])
      && (q > 0 ==> q < m && Numeral(m, base) == Numeral(q, base) + [Digit(m - base * q)])
  {
    hide Digit;
    DivMod(m, base);
    if m >= base {
      Shrinks(m, base);
    }
  }

  lemma DivMod(m: nat, base: nat)
    requires base >= 2
    ensures m - base * (m / base) == m % base
    ensures m < base ==> m / base == 0 && m % base == m
  {
  }

  /** Negation on 32 bits, which leaves the smallest number as it is. */
  function Negated(n: int32): int32 { if n == -0x8000_0000 then n else -n }

  /** `print(long)` in base ten: the negated number is printed as an unsigned one. */
  method PrintLong(n: int32) returns (text: string)
    ensures text == LongText(n)
  {
    hide Numeral;
    if n < 0 {
      ghost var m: int := n;
      assert Negated(n) % 0x1_0000_0000 == -m;
      var digits := PrintNumber(Negated(n) % 0x1_0000_0000, 10);
      return "-" + digits;
    }
    text := PrintNumber(n, 10);
  }

  function LongText(n: int): string { if n < 0 then "-" + Numeral(-n, 10) else Numeral(n, 10) }

  // ----- what a numeral denotes

  function DigitValue(c: char): int { if c <= '9' then c as int - 48 else c as int - 55 }

  /** The number that positional digits denote. */
  function Denoted(text: string, base: nat): int {
    if text == "" then 0 else base * Denoted(text[..|text| - 1], base) + DigitValue(text[|text| - 1])
  }

  /** In every base up to 36 the printed digits denote the number. */
  lemma {:induction false} NumeralDenotes(n: nat, base: nat)
    requires 2 <= base <= 36
    ensures Denoted(Numeral(n, base), base) == n
    decreases n
  {
    hide Digit, DigitValue, Denoted;
    DivMod(n, base);
    if n < base {
      DigitRoundTrip(n);
      DenotedAppend("", Digit(n), base);
      assert "" + [Digit(n)] == [Digit(n)] && Denoted("", base) == 0 by { DenotedEmpty(base); }
      MulZero(base);
    } else {
      Shrinks(n, base);
      DigitRoundTrip(n % base);
      DenotedAppend(Numeral(n / base, base), Digit(n % base), base);
      NumeralDenotes(n / base, base);
    }
  }

  lemma MulZero(base: nat)
    ensures base * 0 == 0
  {
  }

  lemma DenotedEmpty(base: nat)
    ensures Denoted("", base) == 0
  {
  }

  lemma DigitRoundTrip(d: nat)
    requires d < 36
    ensures DigitValue(Digit(d)) == d
  {
  }

  lemma DenotedAppend(text: string, c: char, base: nat)
    ensures Denoted(text + [c], base) == base * Denoted(text, base) + DigitValue(c)
  {
    assert (text + [c])[..|text|] == text;
  }

  // ----- reading

  /** The value read so far, whether every intermediate value fitted an `int`, and what is left of the stream. */
  datatype Reading = Reading(value: int, safe: bool, rest: string)

  /** `value = value * 10 + c - '0'`, evaluated from left to right. */
  function Push(value: int, safe: bool, c: char): (int, bool) {
    (10 * value + c as int - 48, safe && 10 * value + c as int <= INT32_MAX)
  }

  function Take(value: int, safe: bool, text: string, skip: char): Reading
    decreases |text|
  {
    if text == "" || !(IsDigit(text[0]) || text[0] == skip) then Reading(value, safe, text)
    else if text[0] == skip then Take(value, safe, text[1..], skip)
    else
      var (value', safe') := Push(value, safe, text[0]);
      Take(value', safe', text[1..], skip)
  }

  /** What follows the characters that are neither digits nor a minus sign. */
  function SkipJunk(text: string): (t: string)
    ensures t != "" ==> IsDigit(t[0]) || t[0] == '-'
  {
    if text == "" || text[0] == '-' || IsDigit(text[0]) then text else SkipJunk(text[1..])
  }

  function Parse(text: string, skip: char): Reading {
    var t := SkipJunk(text);
    if t == "" then Reading(0, true, "")
    else
      var negative := t[0] != skip && t[0] == '-';
      var (value, safe) := if t[0] != skip && IsDigit(t[0]) then Push(0, true, t[0]) else (0, true);
      var r := Take(value, safe, t[1..], skip);
      if negative then r.(value := -r.value) else r
  }

  /** A stream whose input ends in a timeout. */
  class TextStream {
    var rest: string

    constructor (text: string)
      ensures rest == text
    {
      rest := text;
    }

    method TimedPeek() returns (c: int)
      ensures c == if rest == "" then -1 else rest[0] as int
    {
      c := if rest == "" then -1 else rest[0] as int;
    }

    method Read()
      modifies this
      ensures rest == if old(rest) == "" then "" else old(rest)[1..]
    {
      rest := if rest == "" then "" else rest[1..];
    }

    method PeekNextDigit() returns (c: int)
      modifies this
      ensures rest == SkipJunk(old(rest))
      ensures c == if rest == "" then -1 else rest[0] as int
    {
      while true
        invariant SkipJunk(rest) == SkipJunk(old(rest))
        decreases |rest|
      {
        c := TimedPeek();
        if c < 0 {
          return;
        }
        if c == '-' as int {
          return;
        }
        if c >= '0' as int && c <= '9' as int {
          return;
        }
        Read();
      }
    }

    /** `parseInt(skipChar)`; `safe` tells whether no intermediate value overflowed. */
    method ParseInt(skipChar: char) returns (value: int, ghost safe: bool)
      modifies this
      ensures Reading(value, safe, rest) == Parse(old(rest), skipChar)
    {
      var isNegative := false;
      value, safe := 0, true;
      var c := PeekNextDigit();
      if c < 0 {
        return 0, true;
      }
      ghost var start := rest;
      if c == skipChar as int {
      } else if c == '-' as int {
        isNegative := true;
      } else if c >= '0' as int && c <= '9' as int {
        safe := 10 * value + c <= INT32_MAX;
        value := value * 10 + c - 48;
      }
      Read();
      c := TimedPeek();
      while (c >= '0' as int && c <= '9' as int) || c == skipChar as int
        invariant c == if rest == "" then -1 else rest[0] as int
        invariant Take(value, safe, rest, skipChar)
               == Take(if start[0] != skipChar && IsDigit(start[0]) then Push(0, true, start[0]).0 else 0,
                       if start[0] != skipChar && IsDigit(start[0]) then Push(0, true, start[0]).1 else true,
                       start[1..], skipChar)
        decreases |rest|
      {
        if c == skipChar as int {
        } else {
          safe := safe && 10 * value + c <= INT32_MAX;
          value := value * 10 + c - 48;
        }
        Read();
        c := TimedPeek();
      }
      if isNegative {
        value := -value;
      }
    }
  }

  // ----- reading back what was printed

  /** The value of a string of digits, continuing from `value`. */
  function Fold(value: int, digits: string): int
    decreases |digits|
  {
    if digits == "" then value else Fold(10 * value + digits[0] as int - 48, digits[1..])
  }

  /** No intermediate value on the way exceeds an `int`. */
  predicate FoldsSafely(value: int, digits: string)
    decreases |digits|
  {
    digits == ""
    || (10 * value + digits[0] as int <= INT32_MAX && FoldsSafely(10 * value + digits[0] as int - 48, digits[1..]))
  }

  predicate AllDigits(text: string) { forall i | 0 <= i < |text| :: IsDigit(text[i]) }

  lemma {:induction false} FoldAppend(value: int, digits: string, c: char)
    ensures Fold(value, digits + [c]) == 10 * Fold(value, digits) + c as int - 48
    ensures FoldsSafely(value, digits + [c])
       <==> FoldsSafely(value, digits) && 10 * Fold(value, digits) + c as int <= INT32_MAX
    decreases |digits|
  {
    var all := digits + [c];
    if digits == "" {
      assert all[1..] == "";
    } else {
      assert all[1..] == digits[1..] + [c];
      FoldAppend(10 * value + digits[0] as int - 48, digits[1..], c);
    }
  }

  /** Decimal text folds back to its number, safely exactly when adding the code of '0' still fits. */
  lemma {:induction false} NumeralFolds(n: nat)
    ensures AllDigits(Numeral(n, 10))
    ensures Fold(0, Numeral(n, 10)) == n
    ensures FoldsSafely(0, Numeral(n, 10)) <==> n <= INT32_MAX - 48
    decreases n
  {
    if n < 10 {
      assert Numeral(n, 10)[1..] == "";
      assert Digit(n) as int == n + 48;
    } else {
      NumeralFolds(n / 10);
      FoldAppend(0, Numeral(n / 10, 10), Digit(n % 10));
      assert Digit(n % 10) as int == n % 10 + 48;
    }
  }

  /** Where a run of digits ends. */
  predicate Stops(rest: string, skip: char) { rest == "" || !(IsDigit(rest[0]) || rest[0] == skip) }

  lemma {:induction false} TakeDigits(value: int, safe: bool, digits: string, rest: string, skip: char)
    requires AllDigits(digits) && !IsDigit(skip) && Stops(rest, skip)
    ensures Take(value, safe, digits + rest, skip)
         == Reading(Fold(value, digits), safe && FoldsSafely(value, digits), rest)
    decreases |digits|
  {
    var text := digits + rest;
    if digits == "" {
      assert text == rest;
    } else {
      assert text[0] == digits[0] && text[1..] == digits[1..] + rest;
      var (value', safe') := Push(value, safe, digits[0]);
      TakeDigits(value', safe', digits[1..], rest, skip);
    }
  }

  lemma {:induction false} JunkSkipped(junk: string, text: string)
    requires forall i | 0 <= i < |junk| :: junk[i] != '-' && !IsDigit(junk[i])
    requires text != "" && (text[0] == '-' || IsDigit(text[0]))
    ensures SkipJunk(junk + text) == text
    decreases |junk|
  {
    if junk == "" {
      assert junk + text == text;
    } else {
      assert (junk + text)[1..] == junk[1..] + text;
      JunkSkipped(junk[1..], text);
    }
  }

  /** The character that `parseInt()` skips, which no numeric text contains. */
  const NO_SKIP_CHAR: char := 1 as char

  /**
   * A printed number is read back as itself, after any leading junk and before anything that is not a digit; no
   * intermediate value overflows exactly when its magnitude is at most 2147483599.
   */
  lemma PrintParseRoundTrip(junk: string, n: int32, rest: string)
    requires forall i | 0 <= i < |junk| :: junk[i] != '-' && !IsDigit(junk[i])
    requires Stops(rest, NO_SKIP_CHAR)
    ensures Parse(junk + LongText(n) + rest, NO_SKIP_CHAR) == Reading(n, -2147483599 <= n <= 2147483599, rest)
  {
    hide SkipJunk, Take, Fold, FoldsSafely, Numeral;
    var m: int := n;
    var magnitude := if m < 0 then -m else m;
    var digits := Numeral(magnitude, 10);
    NumeralFolds(magnitude);
    var text := LongText(n) + rest;
    JunkSkipped(junk, text);
    assert junk + LongText(n) + rest == junk + text;
    if n < 0 {
      assert text[1..] == digits + rest;
      TakeDigits(0, true, digits, rest, NO_SKIP_CHAR);
    } else {
      assert text == digits + rest && text[0] == digits[0];
      FirstDigit(digits, rest);
    }
  }

  /** Starting the loop with the first digit already taken. */
  lemma FirstDigit(digits: string, rest: string)
    requires digits != "" && AllDigits(digits) && Stops(rest, NO_SKIP_CHAR)
    ensures var (value, safe) := Push(0, true, digits[0]);
      Take(value, safe, (digits + rest)[1..], NO_SKIP_CHAR) == Reading(Fold(0, digits), FoldsSafely(0, digits), rest)
  {
    hide Take, Fold, FoldsSafely;
    var (value, safe) := Push(0, true, digits[0]);
    FoldFirst(digits);
    assert (digits + rest)[1..] == digits[1..] + rest;
    TakeDigits(value, safe, digits[1..], rest, NO_SKIP_CHAR);
  }

  lemma FoldFirst(digits: string)
    requires digits != ""
    ensures var (value, safe) := Push(0, true, digits[0]);
      && Fold(0, digits) == Fold(value, digits[1..])
      && (FoldsSafely(0, digits) <==> safe && FoldsSafely(value, digits[1..]))
  {
  }

  // ----- any text, any skip character

  /** The characters of `body` that are not skipped. */
  function Kept(body: string, skip: char): string {
    if body == "" then "" else (if body[0] == skip then "" else [body[0]]) + Kept(body[1..], skip)
  }

  /** Digits and skip characters only. */
  predicate Body(body: string, skip: char) { forall i | 0 <= i < |body| :: IsDigit(body[i]) || body[i] == skip }

  lemma {:induction false} TakeKept(value: int, safe: bool, body: string, rest: string, skip: char)
    requires Body(body, skip) && Stops(rest, skip)
    ensures Take(value, safe, body + rest, skip)
         == Reading(Fold(value, Kept(body, skip)), safe && FoldsSafely(value, Kept(body, skip)), rest)
    decreases |body|
  {
    var text, kept := body + rest, Kept(body, skip);
    if body == "" {
      assert text == rest;
    } else {
      assert text[0] == body[0] && text[1..] == body[1..] + rest;
      if body[0] == skip {
        assert kept == Kept(body[1..], skip);
        TakeKept(value, safe, body[1..], rest, skip);
      } else {
        assert kept[0] == body[0] && kept[1..] == Kept(body[1..], skip);
        var (value', safe') := Push(value, safe, body[0]);
        TakeKept(value', safe', body[1..], rest, skip);
      }
    }
  }

  lemma {:induction false} KeptDigits(body: string, skip: char)
    requires Body(body, skip)
    ensures AllDigits(Kept(body, skip))
    decreases |body|
  {
    if body != "" {
      KeptDigits(body[1..], skip);
    }
  }

  lemma {:induction false} FoldDenotes(digits: string)
    requires AllDigits(digits)
    ensures Fold(0, digits) == Denoted(digits, 10)
    decreases |digits|
  {
    if digits != "" {
      var front, last := digits[..|digits| - 1], digits[|digits| - 1];
      assert digits == front + [last];
      FoldDenotes(front);
      FoldAppend(0, front, last);
    }
  }

  /** A text divided into junk, sign, digits with skipped characters, and what follows. */
  predicate Divided(junk: string, sign: string, body: string, rest: string, skip: char) {
    && (forall i | 0 <= i < |junk| :: junk[i] != '-' && !IsDigit(junk[i]))
    && Body(body, skip) && Stops(rest, skip)
    && if sign == "" then body != "" && (IsDigit(body[0]) || body[0] == '-') else sign == "-" && skip != '-'
  }

  lemma NumberFound(junk: string, sign: string, body: string, rest: string, skip: char)
    requires Divided(junk, sign, body, rest, skip)
    ensures var t := SkipJunk(junk + (sign + (body + rest)));
      && t != "" && t[0] == (if sign == "" then body[0] else '-')
      && t[1..] == (if sign == "" then body[1..] else body) + rest
    ensures sign == "" ==> IsDigit(body[0]) || body[0] == skip
  {
    assert sign == "" ==> IsDigit(body[0]) || body[0] == skip;
    hide SkipJunk, Stops, Body;
    var text := sign + (body + rest);
    JunkSkipped(junk, text);
    assert sign == "" ==> text == body + rest && text[1..] == body[1..] + rest;
    assert sign != "" ==> text[1..] == body + rest;
  }

  /**
   * What is read from any text: leading junk is skipped, a minus sign counts unless it is the skip character, and the
   * value is the decimal number written by the digits up to the first character that is neither a digit nor skipped.
   */
  lemma ParseMeaning(junk: string, sign: string, body: string, rest: string, skip: char)
    requires Divided(junk, sign, body, rest, skip)
    ensures var r, number := Parse(junk + (sign + (body + rest)), skip), Denoted(Kept(body, skip), 10);
      r.rest == rest && r.value == if sign == "" then number else -number
  {
    hide Take, Fold, FoldsSafely, Denoted, SkipJunk, Stops, Kept, Body;
    KeptDigits(body, skip);
    FoldDenotes(Kept(body, skip));
    NumberFound(junk, sign, body, rest, skip);
    if sign == "" {
      FirstKept(body, rest, skip);
    } else {
      TakeKept(0, true, body, rest, skip);
    }
  }

  lemma FirstKept(body: string, rest: string, skip: char)
    requires body != "" && Body(body, skip) && Stops(rest, skip)
    ensures var (value, safe) := if body[0] != skip then Push(0, true, body[0]) else (0, true);
      var r := Take(value, safe, body[1..] + rest, skip);
      r.value == Fold(0, Kept(body, skip)) && r.rest == rest
  {
    hide Take;
    var (value, safe) := if body[0] != skip then Push(0, true, body[0]) else (0, true);
    TakeKept(value, safe, body[1..], rest, skip);
    if body[0] == skip {
      assert Kept(body, skip) == Kept(body[1..], skip);
    } else {
      var kept := Kept(body, skip);
      assert kept[0] == body[0] && kept[1..] == Kept(body[1..], skip);
    }
  }

  /** A stream without a digit or a minus sign is used up and gives zero. */
  lemma {:induction false} ParseTimesOut(text: string, skip: char)
    requires forall i | 0 <= i < |text| :: text[i] != '-' && !IsDigit(text[i])
    ensures Parse(text, skip) == Reading(0, true, "")
    decreases |text|
  {
    if text != "" {
      ParseTimesOut(text[1..], skip);
    }
  }

  /** Every text is of one of these two kinds. */
  lemma ParseCases(text: string, skip: char)
    ensures SkipJunk(text) == "" ==> forall i | 0 <= i < |text| :: text[i] != '-' && !IsDigit(text[i])
    ensures SkipJunk(text) != "" ==>
      exists junk, sign, body, rest :: text == junk + (sign + (body + rest)) && Divided(junk, sign, body, rest, skip)
  {
    hide SkipJunk, Divided;
    JunkSplits(text);
    var t := SkipJunk(text);
    if t != "" {
      var junk := text[..|text| - |t|];
      assert text == junk + t;
      NumberDivides(junk, t, skip);
    }
  }

  lemma NumberDivides(junk: string, t: string, skip: char)
    requires forall i | 0 <= i < |junk| :: junk[i] != '-' && !IsDigit(junk[i])
    requires t != "" && (t[0] == '-' || IsDigit(t[0]))
    ensures exists sign, body, rest :: t == sign + (body + rest) && Divided(junk, sign, body, rest, skip)
  {
    hide Body, Stops;
    var sign := if t[0] == '-' && skip != '-' then "-" else "";
    var after := t[|sign|..];
    var n := BodyEnds(after, skip);
    assert after == after[..n] + after[n..];
    assert t == sign + (after[..n] + after[n..]) && Divided(junk, sign, after[..n], after[n..], skip);
  }

  lemma BodyEnds(text: string, skip: char) returns (n: nat)
    ensures n <= |text| && Body(text[..n], skip) && Stops(text[n..], skip)
    ensures text != "" && (IsDigit(text[0]) || text[0] == skip) ==> n > 0
  {
    n := 0;
    while n < |text| && (IsDigit(text[n]) || text[n] == skip)
      invariant n <= |text| && forall i | 0 <= i < n :: IsDigit(text[i]) || text[i] == skip
    {
      n := n + 1;
    }
  }

  lemma {:induction false} JunkSplits(text: string)
    ensures var t := SkipJunk(text);
      && |t| <= |text| && t == text[|text| - |t|..]
      && forall i | 0 <= i < |text| - |t| :: text[i] != '-' && !IsDigit(text[i])
    decreases |text|
  {
    if text != "" && text[0] != '-' && !IsDigit(text[0]) {
      JunkSplits(text[1..]);
      var t := SkipJunk(text);
      assert forall i | 1 <= i < |text| - |t| :: text[i] == text[1..][i - 1];
    }
  }
}
