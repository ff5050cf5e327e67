/** The text form of IPv4 addresses. */
module IpAddress {
  import opened Bytes
  import opened TextSplit
  import NumberText

  /** One octet of the text: digits only, at most 255; the empty text counts as zero. */
  predicate Octet(part: string) { NumberText.AllDigits(part) && NumberText.Fold(0, part) <= 255 }

  function Octets(parts: seq<string>): seq<int> {
    seq(|parts|, i requires 0 <= i < |parts| => NumberText.Fold(0, parts[i]))
  }

  /** The texts that `fromString` accepts: four octets between three dots. */
  predicate Accepted(text: string) {
    var parts := Split(text, '.');
    |parts| == 4 && forall i | 0 <= i < 4 :: Octet(parts[i])
  }

  /** What is left to scan, with `acc` read of the current octet and `done` octets stored. */
  function Scan(text: string, acc: nat, done: seq<int>): (r: (bool, seq<int>))
    decreases |text|
  {
    if text == "" then (|done| == 3, if |done| == 3 then done + [acc] else done)
    else if IsDigit(text[0]) then
      var acc' := 10 * acc + text[0] as int - 48;
      if acc' > 255 then (false, done) else Scan(text[1..], acc', done)
    else if text[0] == '.' then
      if |done| == 3 then (false, done) else Scan(text[1..], 0, done + [acc])
    else (false, done)
  }

  class IPAddress {
    const bytes: array<byte>

    constructor ()
      ensures bytes.Length == 4 && fresh(bytes)
    {
      bytes := new byte[4](_ => 0);
    }

    /** `fromString`: octets are stored as their dots are met, also when the text is refused later on. */
    method FromString(address: string) returns (ok: bool)
      requires bytes.Length == 4
      modifies bytes
      ensures ok <==> Accepted(address)
      ensures ok ==> bytes[..] == Octets(Split(address, '.'))
      ensures !ok ==> exists stored :: LeftBehind(address, stored) && bytes[..] == stored + old(bytes[..])[|stored|..]
    {
      hide Accepted, Octets, Split, LeftBehind;
      Decides(address);
      if !Accepted(address) {
        RefusedText(address);
      }
      var acc: nat, dots, at := 0, 0, 0;
      assert address[0..] == address && bytes[..dots] == [];
      while at < |address|
        invariant 0 <= at <= |address| && 0 <= dots <= 3 && acc <= 255
        invariant Scan(address[at..], acc, bytes[..dots]) == Scan(address, 0, [])
        invariant forall k | dots <= k < 4 :: bytes[k] == old(bytes[k])
        decreases |address| - at
      {
        var c := address[at];
        assert address[at..][0] == c && address[at..][1..] == address[at + 1..];
        at := at + 1;
        if c >= '0' && c <= '9' {
          acc := 10 * acc + (c as int - 48);
          if acc > 255 {
            assert bytes[..] == bytes[..dots] + old(bytes[..])[dots..];
            return false;
          }
        } else if c == '.' {
          if dots == 3 {
            assert bytes[..] == bytes[..dots] + old(bytes[..])[dots..];
            return false;
          }
          bytes[dots] := acc;
          dots := dots + 1;
          assert bytes[..dots] == bytes[..dots - 1] + [acc];
          acc := 0;
        } else {
          assert bytes[..] == bytes[..dots] + old(bytes[..])[dots..];
          return false;
        }
      }
      assert address[at..] == "";
      if dots != 3 {
        assert bytes[..] == bytes[..dots] + old(bytes[..])[dots..];
        return false;
      }
      bytes[3] := acc;
      assert bytes[..] == bytes[..3] + [acc];
      return true;
    }

    /** `printTo` */
    method PrintTo() returns (text: string)
      requires bytes.Length == 4
      ensures text == Dotted(bytes[..])
    {
      text := "";
      for i := 0 to 3
        invariant text == Dots(bytes[..i])
      {
        var number := NumberText.PrintNumber(bytes[i], 10);
        text := text + number + ".";
        assert bytes[..i + 1][..i] == bytes[..i];
      }
      var last := NumberText.PrintNumber(bytes[3], 10);
      text := text + last;
    }
  }

  function Dots(octets: seq<byte>): string {
    if octets == [] then ""
    else Dots(octets[..|octets| - 1]) + NumberText.Numeral(octets[|octets| - 1], 10) + "."
  }

  function Dotted(octets: seq<byte>): string
    requires |octets| == 4
  {
    Dots(octets[..3]) + NumberText.Numeral(octets[3], 10)
  }

  // ----- what the scanner accepts

  /** The parts that remain, the first of them continuing the octet in progress. */
  predicate Rest(parts: seq<string>, acc: nat, count: nat) {
    && parts != [] && |parts| + count == 4
    && NumberText.AllDigits(parts[0]) && NumberText.Fold(acc, parts[0]) <= 255
    && forall i | 1 <= i < |parts| :: Octet(parts[i])
  }

  lemma {:induction false} FoldGrows(value: int, digits: string)
    requires NumberText.AllDigits(digits) && value >= 0
    ensures NumberText.Fold(value, digits) >= value
    decreases |digits|
  {
    if digits != "" {
      assert NumberText.AllDigits(digits[1..]);
      FoldGrows(10 * value + digits[0] as int - 48, digits[1..]);
    }
  }

  /** What the scanner answers, in terms of the parts between the dots. */
  predicate Answers(text: string, acc: nat, done: seq<int>) {
    var parts, r := Split(text, '.'), Scan(text, acc, done);
    && (r.0 <==> Rest(parts, acc, |done|))
    && (r.0 ==> r.1 == done + ([NumberText.Fold(acc, parts[0])] + Octets(parts[1..])))
    && |r.1| <= 4
  }

  lemma {:induction false} ScanDecides(text: string, acc: nat, done: seq<int>)
    requires acc <= 255 && |done| <= 3
    ensures Answers(text, acc, done)
    decreases |text|
  {
    hide Answers;
    if text == "" {
      AnswersAtEnd(acc, done);
    } else if IsDigit(text[0]) {
      var acc' := 10 * acc + text[0] as int - 48;
      if acc' <= 255 {
        ScanDecides(text[1..], acc', done);
      }
      AnswersOverDigit(text, acc, done);
    } else if text[0] == '.' {
      if |done| < 3 {
        ScanDecides(text[1..], 0, done + [acc]);
      }
      AnswersOverDot(text, acc, done);
    } else {
      AnswersOverOther(text, acc, done);
    }
  }

  lemma AnswersAtEnd(acc: nat, done: seq<int>)
    requires acc <= 255 && |done| <= 3
    ensures Answers("", acc, done)
  {
    assert Split("", '.') == [""] && [""][1..] == [];
    assert NumberText.AllDigits("") && Octets([]) == [];
  }

  lemma AnswersOverDigit(text: string, acc: nat, done: seq<int>)
    requires acc <= 255 && |done| <= 3 && text != "" && IsDigit(text[0])
    requires var acc' := 10 * acc + text[0] as int - 48; acc' <= 255 ==> Answers(text[1..], acc', done)
    ensures Answers(text, acc, done)
  {
    DigitStep(text, acc, done);
    hide Rest, Octets, Split, NumberText.Fold;
  }

  lemma AnswersOverDot(text: string, acc: nat, done: seq<int>)
    requires acc <= 255 && |done| <= 3 && text != "" && text[0] == '.'
    requires |done| < 3 ==> Answers(text[1..], 0, done + [acc])
    ensures Answers(text, acc, done)
  {
    hide Octets, Octet, NumberText.AllDigits;
    var parts, rest := Split(text, '.'), Split(text[1..], '.');
    assert parts == [""] + rest && parts[1..] == rest;
    if |done| < 3 {
      DotStep(parts, acc, |done|);
      OctetsFirst(rest);
      hide Rest, Split;
      var more := [NumberText.Fold(0, rest[0])] + Octets(rest[1..]);
      assert (done + [acc]) + more == done + ([acc] + more);
    }
  }

  lemma AnswersOverOther(text: string, acc: nat, done: seq<int>)
    requires |done| <= 3 && text != "" && !IsDigit(text[0]) && text[0] != '.'
    ensures Answers(text, acc, done)
  {
    hide Octets, Octet, NumberText.AllDigits, NumberText.Fold;
    NotAllDigits(Split(text, '.')[0], text[0]);
  }

  lemma NotAllDigits(part: string, c: char)
    requires part != "" && part[0] == c && !IsDigit(c)
    ensures !NumberText.AllDigits(part)
  {
  }

  /** A digit belongs to the octet in progress. */
  lemma DigitStep(text: string, acc: nat, done: seq<int>)
    requires text != "" && IsDigit(text[0])
    ensures var parts, rest, acc' := Split(text, '.'), Split(text[1..], '.'), 10 * acc + text[0] as int - 48;
      && parts[1..] == rest[1..] && NumberText.Fold(acc, parts[0]) == NumberText.Fold(acc', rest[0])
      && (Rest(parts, acc, |done|) <==> Rest(rest, acc', |done|))
      && (acc' > 255 ==> !Rest(parts, acc, |done|))
  {
    hide Octet;
    var parts, rest := Split(text, '.'), Split(text[1..], '.');
    assert parts[0] == [text[0]] + rest[0] && parts[0][1..] == rest[0];
    assert NumberText.AllDigits(parts[0]) <==> NumberText.AllDigits(rest[0]) by {
      if NumberText.AllDigits(parts[0]) {
        assert forall i | 0 <= i < |rest[0]| :: rest[0][i] == parts[0][i + 1];
      }
    }
    assert forall i | 1 <= i < |parts| :: parts[i] == parts[1..][i - 1];
    assert forall i | 1 <= i < |rest| :: rest[i] == rest[1..][i - 1];
    if NumberText.AllDigits(rest[0]) {
      FoldGrows(10 * acc + text[0] as int - 48, rest[0]);
    }
  }

  lemma DotStep(parts: seq<string>, acc: nat, count: nat)
    requires |parts| > 1 && parts[0] == "" && acc <= 255
    ensures Rest(parts, acc, count) <==> Rest(parts[1..], 0, count + 1)
  {
    var rest := parts[1..];
    if Rest(rest, 0, count + 1) {
      forall i | 1 <= i < |parts| ensures Octet(parts[i]) {
        assert parts[i] == rest[i - 1];
      }
    }
    if Rest(parts, acc, count) {
      assert Octet(parts[1]);
      forall i | 1 <= i < |rest| ensures Octet(rest[i]) {
        assert rest[i] == parts[i + 1];
      }
    }
  }

  lemma OctetsFirst(parts: seq<string>)
    requires parts != []
    ensures Octets(parts) == [NumberText.Fold(0, parts[0])] + Octets(parts[1..])
  {
  }

  lemma Decides(text: string)
    ensures Scan(text, 0, []).0 <==> Accepted(text)
    ensures Accepted(text) ==> Scan(text, 0, []).1 == Octets(Split(text, '.'))
    ensures |Scan(text, 0, []).1| <= 4
  {
    hide Scan, Split, NumberText.Fold, NumberText.AllDigits;
    ScanDecides(text, 0, []);
    var parts := Split(text, '.');
    assert [] + ([NumberText.Fold(0, parts[0])] + Octets(parts[1..]))
      == [NumberText.Fold(0, parts[0])] + Octets(parts[1..]);
    if |parts| == 4 {
      assert [NumberText.Fold(0, parts[0])] + Octets(parts[1..]) == Octets(parts);
    }
  }

  // ----- what a refused text leaves behind

  /** Part `i` is an octet, the first one continuing `acc`. */
  predicate Good(parts: seq<string>, acc: nat, i: nat)
    requires i < |parts|
  {
    NumberText.AllDigits(parts[i]) && NumberText.Fold(if i == 0 then acc else 0, parts[i]) <= 255
  }

  function Leading(parts: seq<string>, acc: nat, m: nat): seq<int>
    requires m <= |parts|
  {
    seq(m, i requires 0 <= i < m => NumberText.Fold(if i == 0 then acc else 0, parts[i]))
  }

  /** `stored` is what precedes the first part that is no octet, the fourth part, or the last part. */
  predicate Kept(parts: seq<string>, acc: nat, done: seq<int>, stored: seq<int>) {
    && |done| <= |stored| <= 3
    && var m := |stored| - |done|;
    && m < |parts| && stored == done + Leading(parts, acc, m)
    && (forall i | 0 <= i < m :: Good(parts, acc, i))
    && (|stored| == 3 || m == |parts| - 1 || !Good(parts, acc, m))
  }

  lemma {:induction false} ScanKeeps(text: string, acc: nat, done: seq<int>)
    requires acc <= 255 && |done| <= 3 && !Scan(text, acc, done).0
    ensures Kept(Split(text, '.'), acc, done, Scan(text, acc, done).1)
    decreases |text|
  {
    hide Split, Kept, Good, Leading, NumberText.Fold;
    if text == "" {
      SplitWhole("", '.');
      KeptNothing([""], acc, done);
    } else if IsDigit(text[0]) {
      var acc' := 10 * acc + text[0] as int - 48;
      if acc' <= 255 {
        ScanKeeps(text[1..], acc', done);
        KeptOverDigit(text, acc, done, Scan(text, acc, done).1);
      } else {
        TooLarge(text, acc);
        KeptNothing(Split(text, '.'), acc, done);
      }
    } else if text[0] == '.' {
      if |done| < 3 {
        ScanKeeps(text[1..], 0, done + [acc]);
        KeptOverDot(Split(text[1..], '.'), acc, done, Scan(text, acc, done).1);
        assert Split(text, '.') == [""] + Split(text[1..], '.') by { DotSplits(text); }
      } else {
        KeptNothing(Split(text, '.'), acc, done);
      }
    } else {
      NoOctet(text, acc);
      KeptNothing(Split(text, '.'), acc, done);
    }
  }

  lemma DotSplits(text: string)
    requires text != "" && text[0] == '.'
    ensures Split(text, '.') == [""] + Split(text[1..], '.')
  {
  }

  lemma KeptNothing(parts: seq<string>, acc: nat, done: seq<int>)
    requires parts != [] && |done| <= 3
    requires |done| == 3 || |parts| == 1 || !Good(parts, acc, 0)
    ensures Kept(parts, acc, done, done)
  {
    hide Good;
    assert done + Leading(parts, acc, 0) == done;
  }

  lemma NoOctet(text: string, acc: nat)
    requires text != "" && !IsDigit(text[0]) && text[0] != '.'
    ensures !Good(Split(text, '.'), acc, 0)
  {
    NotAllDigits(Split(text, '.')[0], text[0]);
  }

  lemma TooLarge(text: string, acc: nat)
    requires text != "" && IsDigit(text[0]) && 10 * acc + text[0] as int - 48 > 255
    ensures !Good(Split(text, '.'), acc, 0)
  {
    var rest := Split(text[1..], '.');
    FirstDigitMoves(text, acc);
    if NumberText.AllDigits(rest[0]) {
      FoldGrows(10 * acc + text[0] as int - 48, rest[0]);
    }
  }

  lemma FirstDigitMoves(text: string, acc: nat)
    requires text != "" && IsDigit(text[0])
    ensures var parts, rest, acc' := Split(text, '.'), Split(text[1..], '.'), 10 * acc + text[0] as int - 48;
      && |parts| == |rest| && (forall i | 1 <= i < |parts| :: parts[i] == rest[i])
      && (NumberText.AllDigits(parts[0]) <==> NumberText.AllDigits(rest[0]))
      && NumberText.Fold(acc, parts[0]) == NumberText.Fold(acc', rest[0])
  {
    var parts, rest := Split(text, '.'), Split(text[1..], '.');
    assert parts[0] == [text[0]] + rest[0] && parts[0][1..] == rest[0];
    if NumberText.AllDigits(parts[0]) {
      assert forall i | 0 <= i < |rest[0]| :: rest[0][i] == parts[0][i + 1];
    }
  }

  lemma KeptOverDigit(text: string, acc: nat, done: seq<int>, stored: seq<int>)
    requires text != "" && IsDigit(text[0])
    requires Kept(Split(text[1..], '.'), 10 * acc + text[0] as int - 48, done, stored)
    ensures Kept(Split(text, '.'), acc, done, stored)
  {
    hide Split, NumberText.Fold, NumberText.AllDigits;
    FirstDigitMoves(text, acc);
    var parts, rest, acc' := Split(text, '.'), Split(text[1..], '.'), 10 * acc + text[0] as int - 48;
    var m := |stored| - |done|;
    assert forall i | 0 <= i < |parts| :: Good(parts, acc, i) <==> Good(rest, acc', i);
    assert Leading(parts, acc, m) == Leading(rest, acc', m);
  }

  lemma KeptOverDot(rest: seq<string>, acc: nat, done: seq<int>, stored: seq<int>)
    requires acc <= 255 && |done| < 3 && Kept(rest, 0, done + [acc], stored)
    ensures Kept([""] + rest, acc, done, stored)
  {
    hide NumberText.AllDigits;
    var parts, m := [""] + rest, |stored| - |done|;
    assert NumberText.Fold(acc, "") == acc && Good(parts, acc, 0) by { NoDigitsAtAll(); }
    assert forall i | 1 <= i < |parts| :: Good(parts, acc, i) <==> Good(rest, 0, i - 1);
    assert Leading(parts, acc, m) == [acc] + Leading(rest, 0, m - 1);
    assert (done + [acc]) + Leading(rest, 0, m - 1) == done + ([acc] + Leading(rest, 0, m - 1));
  }

  lemma NoDigitsAtAll()
    ensures NumberText.AllDigits("")
  {
  }

  /** `stored` holds the octets before the first part that is none, before the fourth part, or before the last one. */
  predicate LeftBehind(text: string, stored: seq<int>) {
    var parts := Split(text, '.');
    && |stored| <= 3 && |stored| < |parts| && stored == Octets(parts[..|stored|])
    && (forall i | 0 <= i < |stored| :: Octet(parts[i]))
    && (|stored| == 3 || |stored| == |parts| - 1 || !Octet(parts[|stored|]))
  }

  /** A refused text leaves behind the octets it had completed with a dot. */
  lemma RefusedText(text: string)
    requires !Accepted(text)
    ensures LeftBehind(text, Scan(text, 0, []).1)
  {
    hide Scan, Split, NumberText.Fold, NumberText.AllDigits;
    Decides(text);
    ScanKeeps(text, 0, []);
    var parts, stored := Split(text, '.'), Scan(text, 0, []).1;
    assert forall i | 0 <= i < |parts| :: Good(parts, 0, i) <==> Octet(parts[i]);
    assert Leading(parts, 0, |stored|) == Octets(parts[..|stored|]);
    assert [] + Leading(parts, 0, |stored|) == Leading(parts, 0, |stored|);
  }

  // ----- round trip

  lemma NumeralIsOctet(o: byte)
    ensures Octet(NumberText.Numeral(o, 10)) && NumberText.Fold(0, NumberText.Numeral(o, 10)) == o
    ensures '.' !in NumberText.Numeral(o, 10)
  {
    NumberText.NumeralFolds(o);
  }

  lemma FourParts(a: string, b: string, c: string, d: string)
    requires '.' !in a && '.' !in b && '.' !in c && '.' !in d
    ensures Split(a + ['.'] + (b + ['.'] + (c + ['.'] + d)), '.') == [a, b, c, d]
  {
    hide Split;
    SplitWhole(d, '.');
    SplitJoined(c, d, '.');
    SplitJoined(b, c + ['.'] + d, '.');
    SplitJoined(a, b + ['.'] + (c + ['.'] + d), '.');
  }

  lemma Regroup(a: string, b: string, c: string, d: string)
    ensures (a + "." + b + "." + c + ".") + d == a + ['.'] + (b + ['.'] + (c + ['.'] + d))
  {
  }

  lemma DottedSplits(a: byte, b: byte, c: byte, d: byte)
    ensures Split(Dotted([a, b, c, d]), '.')
         == [NumberText.Numeral(a, 10), NumberText.Numeral(b, 10), NumberText.Numeral(c, 10), NumberText.Numeral(d, 10)]
  {
    hide NumberText.Numeral, Split, Dots, Octet, NumberText.Fold;
    var ta, tb, tc, td := NumberText.Numeral(a, 10), NumberText.Numeral(b, 10), NumberText.Numeral(c, 10),
        NumberText.Numeral(d, 10);
    NumeralIsOctet(a);
    NumeralIsOctet(b);
    NumeralIsOctet(c);
    NumeralIsOctet(d);
    DotsOfThree(a, b, c);
    assert [a, b, c, d][..3] == [a, b, c];
    Regroup(ta, tb, tc, td);
    FourParts(ta, tb, tc, td);
  }

  lemma DotsOfThree(a: byte, b: byte, c: byte)
    ensures Dots([a, b, c])
         == NumberText.Numeral(a, 10) + "." + NumberText.Numeral(b, 10) + "." + NumberText.Numeral(c, 10) + "."
  {
    hide NumberText.Numeral;
    assert [a, b, c][..2] == [a, b] && [a, b][..1] == [a] && [a][..0] == [];
    assert Dots([a]) == NumberText.Numeral(a, 10) + "." by {
      assert Dots([]) == "";
      assert "" + NumberText.Numeral(a, 10) == NumberText.Numeral(a, 10);
    }
  }

  /** Every address is restored from its own text. */
  lemma AddressRoundTrip(octets: seq<byte>)
    requires |octets| == 4
    ensures Accepted(Dotted(octets)) && Octets(Split(Dotted(octets), '.')) == octets
  {
    hide Dotted, Split, NumberText.Numeral, NumberText.Fold, Octet;
    var a, b, c, d := octets[0], octets[1], octets[2], octets[3];
    assert octets == [a, b, c, d];
    DottedSplits(a, b, c, d);
    NumeralIsOctet(a);
    NumeralIsOctet(b);
    NumeralIsOctet(c);
    NumeralIsOctet(d);
  }
}
