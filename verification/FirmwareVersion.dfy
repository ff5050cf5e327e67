/** The comparison of dotted firmware versions. */
module FirmwareVersion {
  import opened Bytes
  import opened TextSplit
  import NumberText

  datatype CString = Null | Text(text: string)

  /** The number that a component's digits spell; other characters are skipped. */
  function Accumulate(value: nat, part: string): nat
    decreases |part|
  {
    if part == "" then value
    else Accumulate(if IsDigit(part[0]) then 10 * value + (part[0] as int - '0' as int) else value, part[1..])
  }

  /** The values of the components from position `from` on; none past the end. */
  function Values(s: string, from: nat): (v: seq<nat>)
    decreases |s| + 1 - from
  {
    if from > |s| then []
    else
      var end := PartEnd(s, from, '.');
      [Accumulate(0, s[from..end])] + Values(s, end + 1)
  }

  // ----- what a component denotes

  /** The digits of a part, in their order. */
  function OnlyDigits(part: string): string {
    if part == "" then ""
    else
      var last := part[|part| - 1];
      OnlyDigits(part[..|part| - 1]) + if IsDigit(last) then [last] else ""
  }

  lemma {:induction false} AccumulateAppend(value: nat, part: string, c: char)
    ensures Accumulate(value, part + [c])
         == if IsDigit(c) then 10 * Accumulate(value, part) + (c as int - 48) else Accumulate(value, part)
    decreases |part|
  {
    var all := part + [c];
    if part == "" {
      assert all[1..] == "";
    } else {
      assert all[0] == part[0] && all[1..] == part[1..] + [c];
      AccumulateAppend(if IsDigit(part[0]) then 10 * value + (part[0] as int - 48) else value, part[1..], c);
    }
  }

  /** A component counts as the decimal number that its digits write, whatever stands between them. */
  lemma {:induction false} AccumulateMeaning(part: string)
    ensures Accumulate(0, part) == NumberText.Denoted(OnlyDigits(part), 10)
    decreases |part|
  {
    hide Accumulate, NumberText.Denoted;
    if part == "" {
      NumberText.DenotedEmpty(10);
      assert Accumulate(0, "") == 0 by { NothingAccumulated(); }
    } else {
      var front, last := part[..|part| - 1], part[|part| - 1];
      assert part == front + [last];
      AccumulateMeaning(front);
      AccumulateAppend(0, front, last);
      NumberText.DenotedAppend(OnlyDigits(front), last, 10);
      assert IsDigit(last) ==> NumberText.DigitValue(last) == last as int - 48;
      assert OnlyDigits(front) + "" == OnlyDigits(front);
    }
  }

  lemma NothingAccumulated()
    ensures Accumulate(0, "") == 0
  {
  }

  lemma {:induction false} AllAreDigits(digits: string)
    requires NumberText.AllDigits(digits)
    ensures OnlyDigits(digits) == digits
    decreases |digits|
  {
    if digits != "" {
      AllAreDigits(digits[..|digits| - 1]);
      assert digits == digits[..|digits| - 1] + [digits[|digits| - 1]];
    }
  }

  /** A printed number counts as itself. */
  lemma AccumulateNumeral(n: nat)
    ensures Accumulate(0, NumberText.Numeral(n, 10)) == n
  {
    hide Accumulate, OnlyDigits, NumberText.Numeral, NumberText.Denoted, NumberText.Fold, NumberText.FoldsSafely;
    AccumulateMeaning(NumberText.Numeral(n, 10));
    NumberText.NumeralFolds(n);
    AllAreDigits(NumberText.Numeral(n, 10));
    NumberText.NumeralDenotes(n, 10);
  }

  lemma {:induction false} DigitsOfBoth(a: string, b: string)
    ensures OnlyDigits(a + b) == OnlyDigits(a) + OnlyDigits(b)
    decreases |b|
  {
    if b == "" {
      assert a + b == a;
    } else {
      assert (a + b)[..|a + b| - 1] == a + b[..|b| - 1];
      DigitsOfBoth(a, b[..|b| - 1]);
    }
  }

  /** A character that is not a digit makes no difference, wherever it stands in a component. */
  lemma OthersAreIgnored(before: string, c: char, after: string)
    requires !IsDigit(c)
    ensures Accumulate(0, before + [c] + after) == Accumulate(0, before + after)
  {
    hide Accumulate, NumberText.Denoted;
    AccumulateMeaning(before + [c] + after);
    AccumulateMeaning(before + after);
    DigitsOfBoth(before + [c], after);
    DigitsOfBoth(before, [c]);
    assert OnlyDigits([c]) == "" by { assert [c][..0] == ""; }
    assert OnlyDigits(before) + "" == OnlyDigits(before);
    DigitsOfBoth(before, after);
  }

  /** The decimal number that the digits of a part write. */
  function Number(part: string): nat {
    AccumulateMeaning(part);
    NumberText.Denoted(OnlyDigits(part), 10)
  }

  /** The decimal numbers in the dot-separated parts. */
  function PartValues(parts: seq<string>): seq<nat> {
    seq(|parts|, i requires 0 <= i < |parts| => Number(parts[i]))
  }

  /** Reading from dot to dot gives the values of the parts between the dots. */
  lemma {:induction false} ValuesArePartValues(s: string, from: nat)
    requires from <= |s|
    ensures Values(s, from) == PartValues(Split(s[from..], '.'))
    decreases |s| - from
  {
    hide Accumulate, PartEnd, Split, PartValues, Number, Values;
    SplitAt(s, from, '.');
    FirstValue(s, from);
    var end := PartEnd(s, from, '.');
    if end < |s| {
      ValuesArePartValues(s, end + 1);
      FirstPart(s[from..end], Split(s[end + 1..], '.'));
    } else {
      FirstPart(s[from..end], []);
      NoParts();
      assert [s[from..end]] + [] == [s[from..end]];
    }
  }

  lemma FirstValue(s: string, from: nat)
    requires from <= |s|
    ensures var end := PartEnd(s, from, '.');
      && Values(s, from) == [Accumulate(0, s[from..end])] + Values(s, end + 1)
      && (end == |s| ==> Values(s, end + 1) == [])
  {
    hide Accumulate, PartEnd;
  }

  lemma NoParts()
    ensures PartValues([]) == []
  {
  }

  lemma FirstPart(part: string, rest: seq<string>)
    ensures PartValues([part] + rest) == [Accumulate(0, part)] + PartValues(rest)
  {
    AccumulateMeaning(part);
    hide Accumulate, NumberText.Denoted, OnlyDigits;
  }

  /** Component `i`, zero beyond the last one. */
  function At(v: seq<nat>, i: nat): nat { if i < |v| then v[i] else 0 }

  /** Lexicographic order of the components, padded with zeros. */
  ghost predicate Less(a: seq<nat>, b: seq<nat>) {
    exists k: nat :: LessAt(a, b, k)
  }

  ghost predicate LessAt(a: seq<nat>, b: seq<nat>, k: nat) {
    At(a, k) < At(b, k) && forall i: nat | i < k :: At(a, i) == At(b, i)
  }

  ghost predicate Same(a: seq<nat>, b: seq<nat>) { forall i: nat :: At(a, i) == At(b, i) }

  function Tail(v: seq<nat>): seq<nat> { if v == [] then [] else v[1..] }

  function CompareValues(a: seq<nat>, b: seq<nat>): (r: int)
    ensures -1 <= r <= 1
    decreases |a| + |b|
  {
    if a == [] && b == [] then 0
    else if At(a, 0) > At(b, 0) then 1
    else if At(a, 0) < At(b, 0) then -1
    else CompareValues(Tail(a), Tail(b))
  }

  /** The comparison; a missing version comes before every version. */
  function Compare(a: CString, b: CString): int {
    match (a, b)
    case (Null, Null) => 0
    case (Null, Text(_)) => -1
    case (Text(_), Null) => 1
    case (Text(s), Text(t)) => CompareValues(Values(s, 0), Values(t, 0))
  }

  /** Every component fits an `int`, and so does every position. */
  predicate Fits(v: CString) {
    v.Text? ==> |v.text| < 0x7FFF_FFFF && Small(Values(v.text, 0))
  }

  predicate Small(v: seq<nat>) { forall i | 0 <= i < |v| :: v[i] <= 0x7FFF_FFFF }

  /** `IoTHubClient_FwVersionCompare` */
  method FwVersionCompare(fwVersion1: CString, fwVersion2: CString) returns (result: int)
    requires Fits(fwVersion1) && Fits(fwVersion2)
    ensures result == Compare(fwVersion1, fwVersion2)
  {
    hide Values, PartEnd;
    if fwVersion1.Null? || fwVersion2.Null? {
      if fwVersion1 == fwVersion2 {
        return 0;
      }
      return if fwVersion1.Text? then 1 else -1;
    }
    var s, t := fwVersion1.text, fwVersion2.text;
    var i: nat, j: nat := 0, 0;
    while i < |s| || j < |t|
      invariant Small(Values(s, i)) && Small(Values(t, j))
      invariant CompareValues(Values(s, i), Values(t, j)) == CompareValues(Values(s, 0), Values(t, 0))
      decreases (if i < |s| then |s| - i else 0) + (if j < |t| then |t| - j else 0)
    {
      NextComponent(s, i);
      NextComponent(t, j);
      var vnum1, vnum2;
      vnum1, i := ReadComponent(s, i);
      vnum2, j := ReadComponent(t, j);
      if vnum1 > vnum2 {
        return 1;
      }
      if vnum2 > vnum1 {
        return -1;
      }
      i, j := i + 1, j + 1;
    }
    Exhausted(s, i);
    Exhausted(t, j);
    return 0;
  }

  /** The inner loop: the value of the component at `from`, and where it ends; zero past the end. */
  method ReadComponent(s: string, from: nat) returns (vnum: int32, i: nat)
    requires Small(Values(s, from))
    ensures vnum == At(Values(s, from), 0)
    ensures i == if from < |s| then PartEnd(s, from, '.') else from
  {
    vnum, i := 0, from;
    ghost var end := if from <= |s| then PartEnd(s, from, '.') else from;
    if from <= |s| {
      assert Values(s, from)[0] == Accumulate(0, s[from..end]);
    }
    while i < |s| && s[i] != '.'
      invariant from <= i && (from < |s| ==> i <= end && PartEnd(s, i, '.') == end) && (from >= |s| ==> i == from)
      invariant from <= |s| ==> i <= |s| && 0 <= vnum && Accumulate(vnum, s[i..end]) == Values(s, from)[0]
      invariant from > |s| ==> vnum == 0
    {
      assert s[i..end][0] == s[i] && s[i..end][1..] == s[i + 1..end];
      AccumulateGrows(if IsDigit(s[i]) then 10 * vnum + (s[i] as int - '0' as int) else vnum, s[i + 1..end]);
      if IsDigit(s[i]) {
        vnum := vnum * 10 + (s[i] as int - '0' as int);
      }
      i := i + 1;
    }
  }

  lemma {:induction false} AccumulateGrows(value: nat, part: string)
    ensures Accumulate(value, part) >= value
    decreases |part|
  {
    if part != "" {
      AccumulateGrows(if IsDigit(part[0]) then 10 * value + (part[0] as int - '0' as int) else value, part[1..]);
    }
  }

  /** The components that remain after one has been read. */
  lemma NextComponent(s: string, i: nat)
    requires Small(Values(s, i))
    ensures var end := if i < |s| then PartEnd(s, i, '.') else i;
      Values(s, end + 1) == Tail(Values(s, i)) && Small(Values(s, end + 1))
  {
    hide Accumulate, PartEnd;
    var end := if i < |s| then PartEnd(s, i, '.') else i;
    if i == |s| {
      assert PartEnd(s, i, '.') == i;
    }
    if i <= |s| {
      var first := Accumulate(0, s[i..end]);
      assert Values(s, i) == [first] + Values(s, end + 1);
    }
    SmallTail(Values(s, i));
  }

  lemma SmallTail(v: seq<nat>)
    requires Small(v)
    ensures Small(Tail(v))
  {
  }

  lemma Exhausted(s: string, i: nat)
    requires i >= |s|
    ensures Values(s, i) == [] || Values(s, i) == [0]
  {
    if i == |s| {
      assert s[i..i] == "";
    }
  }

  // ----- what the comparison means

  lemma TailAt(v: seq<nat>, i: nat)
    ensures At(Tail(v), i) == At(v, i + 1)
  {
  }

  lemma {:induction false} CompareIsLexicographic(a: seq<nat>, b: seq<nat>)
    ensures CompareValues(a, b) == -1 ==> Less(a, b)
    ensures CompareValues(a, b) == 1 ==> Less(b, a)
    ensures CompareValues(a, b) == 0 ==> Same(a, b)
    decreases |a| + |b|
  {
    if a == [] && b == [] {
    } else if At(a, 0) < At(b, 0) {
      assert LessAt(a, b, 0);
    } else if At(a, 0) > At(b, 0) {
      assert LessAt(b, a, 0);
    } else {
      CompareIsLexicographic(Tail(a), Tail(b));
      match CompareValues(a, b)
      case 0 => Shifted(a, b);
      case -1 =>
        var k: nat :| LessAt(Tail(a), Tail(b), k);
        LessShifts(a, b, k);
      case _ =>
        var k: nat :| LessAt(Tail(b), Tail(a), k);
        LessShifts(b, a, k);
    }
  }

  lemma Shifted(a: seq<nat>, b: seq<nat>)
    requires At(a, 0) == At(b, 0) && Same(Tail(a), Tail(b))
    ensures Same(a, b)
  {
    forall i: nat
      ensures At(a, i) == At(b, i)
    {
      if i > 0 {
        TailAt(a, i - 1);
        TailAt(b, i - 1);
      }
    }
  }

  lemma LessShifts(a: seq<nat>, b: seq<nat>, k: nat)
    requires At(a, 0) == At(b, 0) && LessAt(Tail(a), Tail(b), k)
    ensures LessAt(a, b, k + 1)
  {
    TailAt(a, k);
    TailAt(b, k);
    forall i: nat | i < k + 1
      ensures At(a, i) == At(b, i)
    {
      if i > 0 {
        TailAt(a, i - 1);
        TailAt(b, i - 1);
        assert At(Tail(a), i - 1) == At(Tail(b), i - 1);
      }
    }
  }

  lemma LessExcludes(a: seq<nat>, b: seq<nat>)
    ensures !(Less(a, b) && Less(b, a)) && !(Less(a, b) && Same(a, b))
  {
  }

  /** The sign of the comparison is the lexicographic order of the zero-padded components, in all three cases. */
  lemma CompareMeaning(a: seq<nat>, b: seq<nat>)
    ensures CompareValues(a, b) == -1 <==> Less(a, b)
    ensures CompareValues(a, b) == 1 <==> Less(b, a)
    ensures CompareValues(a, b) == 0 <==> Same(a, b)
  {
    hide Less, Same, CompareValues;
    CompareIsLexicographic(a, b);
    LessExcludes(a, b);
    LessExcludes(b, a);
    assert Same(a, b) ==> Same(b, a) by { SameSymmetric(a, b); }
  }

  lemma SameSymmetric(a: seq<nat>, b: seq<nat>)
    ensures Same(a, b) ==> Same(b, a)
  {
  }

  // ----- a total order up to equality of versions

  lemma {:induction false} ValuesAntisymmetric(a: seq<nat>, b: seq<nat>)
    ensures CompareValues(a, b) == -CompareValues(b, a)
    decreases |a| + |b|
  {
    if (a != [] || b != []) && At(a, 0) == At(b, 0) {
      ValuesAntisymmetric(Tail(a), Tail(b));
    }
  }

  lemma {:induction false} ValuesTransitive(a: seq<nat>, b: seq<nat>, c: seq<nat>)
    requires CompareValues(a, b) <= 0 && CompareValues(b, c) <= 0
    ensures CompareValues(a, c) <= 0
    ensures CompareValues(a, b) < 0 || CompareValues(b, c) < 0 ==> CompareValues(a, c) < 0
    decreases |a| + |b| + |c|
  {
    if At(a, 0) == At(b, 0) == At(c, 0) && (a != [] || b != [] || c != []) {
      TailCompares(a, b);
      TailCompares(b, c);
      TailCompares(a, c);
      ValuesTransitive(Tail(a), Tail(b), Tail(c));
    }
  }

  lemma TailCompares(a: seq<nat>, b: seq<nat>)
    requires At(a, 0) == At(b, 0)
    ensures CompareValues(a, b) == CompareValues(Tail(a), Tail(b))
  {
  }

  /** Swapping the versions changes the sign. */
  lemma CompareAntisymmetric(a: CString, b: CString)
    ensures Compare(a, b) == -Compare(b, a)
  {
    hide Values, CompareValues;
    if a.Text? && b.Text? {
      ValuesAntisymmetric(Values(a.text, 0), Values(b.text, 0));
    }
  }

  /** The order is transitive, strictly so if either step is strict. */
  lemma CompareTransitive(a: CString, b: CString, c: CString)
    requires Compare(a, b) <= 0 && Compare(b, c) <= 0
    ensures Compare(a, c) <= 0
    ensures Compare(a, b) < 0 || Compare(b, c) < 0 ==> Compare(a, c) < 0
  {
    hide Values, CompareValues;
    if a.Text? && b.Text? && c.Text? {
      ValuesTransitive(Values(a.text, 0), Values(b.text, 0), Values(c.text, 0));
    }
  }

  // ----- versions printed from numbers

  /** The numbers in decimal, with dots between them. */
  function Printed(numbers: seq<nat>): string
    requires numbers != []
  {
    NumberText.Numeral(numbers[0], 10) + if |numbers| == 1 then "" else "." + Printed(numbers[1..])
  }

  lemma NumeralHasNoDot(n: nat)
    ensures '.' !in NumberText.Numeral(n, 10)
  {
    hide NumberText.Numeral, NumberText.Fold, NumberText.FoldsSafely;
    NumberText.NumeralFolds(n);
  }

  lemma {:induction false} PartsOfPrinted(numbers: seq<nat>)
    requires numbers != []
    ensures PartValues(Split(Printed(numbers), '.')) == numbers
    decreases |numbers|
  {
    hide NumberText.Numeral, Split, PartValues, Accumulate;
    var first := NumberText.Numeral(numbers[0], 10);
    NumeralHasNoDot(numbers[0]);
    AccumulateNumeral(numbers[0]);
    if |numbers| == 1 {
      assert first + "" == first;
      SplitWhole(first, '.');
      FirstPart(first, []);
      NoParts();
      assert [first] + [] == [first];
    } else {
      var rest := Printed(numbers[1..]);
      assert first + ("." + rest) == first + ['.'] + rest;
      SplitJoined(first, rest, '.');
      FirstPart(first, Split(rest, '.'));
      PartsOfPrinted(numbers[1..]);
    }
  }

  /** Printed versions compare as their numbers do, component by component. */
  lemma PrintedOrder(a: seq<nat>, b: seq<nat>)
    requires a != [] && b != []
    ensures var r := Compare(Text(Printed(a)), Text(Printed(b)));
      && (r == -1 <==> Less(a, b))
      && (r == 1 <==> Less(b, a))
      && (r == 0 <==> Same(a, b))
  {
    hide Values, Printed, CompareValues, Less, Same, Split, PartValues;
    ValuesArePartValues(Printed(a), 0);
    ValuesArePartValues(Printed(b), 0);
    assert Printed(a)[0..] == Printed(a) && Printed(b)[0..] == Printed(b);
    PartsOfPrinted(a);
    PartsOfPrinted(b);
    CompareMeaning(a, b);
  }

  /** Versions compare as the numbers in their parts do; no version at all comes before every version. */
  lemma CompareOrder(a: CString, b: CString)
    ensures a.Null? || b.Null? ==> Compare(a, b) == (if a.Text? then 1 else 0) - (if b.Text? then 1 else 0)
    ensures a.Text? && b.Text? ==>
      var va, vb := Values(a.text, 0), Values(b.text, 0);
      && va == PartValues(Split(a.text, '.')) && vb == PartValues(Split(b.text, '.'))
      && (Compare(a, b) == -1 <==> Less(va, vb))
      && (Compare(a, b) == 1 <==> Less(vb, va))
      && (Compare(a, b) == 0 <==> Same(va, vb))
  {
    hide Values, CompareValues, Less, Same, Split, PartValues;
    if a.Text? && b.Text? {
      ValuesArePartValues(a.text, 0);
      ValuesArePartValues(b.text, 0);
      assert a.text[0..] == a.text && b.text[0..] == b.text;
      CompareMeaning(Values(a.text, 0), Values(b.text, 0));
    }
  }
}
