/** The strict `MAJOR.MINOR.PATCH` text of the package descriptor. */
module VersionText {
  import opened Bytes
  import NumberText

  const DOT: byte := 46
  const NUL: byte := 0

  /** Canonical decimal: no leading zero, except for zero itself. */
  function Decimal(n: nat): (text: seq<byte>)
    ensures text != [] && forall i | 0 <= i < |text| :: IsDigitCode(text[i])
  {
    if n < 10 then [48 + n] else Decimal(n / 10) + [48 + n % 10]
  }

  /** A C string field: non-empty text, a terminator inside the field, and nothing but zeros from there on. */
  predicate Canonical(field: seq<byte>) {
    var end := Terminator(field, 0);
    end != 0 && end != |field| && AllZero(field[end..])
  }

  predicate AllZero(data: seq<byte>) { forall i | 0 <= i < |data| :: data[i] == 0 }

  function Terminator(field: seq<byte>, from: nat): (end: nat)
    requires from <= |field|
    ensures from <= end <= |field|
    ensures forall i | from <= i < end :: field[i] != 0
    ensures end < |field| ==> field[end] == 0
    decreases |field| - from
  {
    if from < |field| && field[from] != 0 then Terminator(field, from + 1) else from
  }

  lemma CanonicalEnds(field: seq<byte>)
    requires Canonical(field)
    ensures field != [] && field[|field| - 1] == NUL
  {
    var end := Terminator(field, 0);
    assert field[end..][|field| - 1 - end] == 0;
  }

  /** The digit loop: `None` once the value no longer fits sixteen bits. */
  function Digits(text: seq<byte>, at: nat, parsed: nat): (r: Option<(uint16, nat)>)
    requires at < |text| && IsDigitCode(text[at]) && !IsDigitCode(text[|text| - 1])
    ensures r.Some? ==> at < r.value.1 < |text| && !IsDigitCode(text[r.value.1])
    decreases |text| - at
  {
    var value := 10 * parsed + text[at] - 48;
    if value > UINT16_MAX then None
    else if IsDigitCode(text[at + 1]) then Digits(text, at + 1, value)
    else Some((value, at + 1))
  }

  function Component(text: seq<byte>, at: nat, separator: byte): (r: Option<(uint16, nat)>)
    requires at < |text| && !IsDigitCode(text[|text| - 1])
    ensures r.Some? ==> at < r.value.1 <= |text|
    ensures r.Some? && separator == NUL ==> r.value.1 < |text|
  {
    if !IsDigitCode(text[at]) || (text[at] == 48 && IsDigitCode(text[at + 1])) then None
    else
      match Digits(text, at, 0)
      case None => None
      case Some((value, end)) =>
        if text[end] != separator then None
        else Some((value, if separator != NUL then end + 1 else end))
  }

  datatype Version = Version(major: uint16, minor: uint16, patch: uint16)

  function Parse(text: seq<byte>): Option<Version>
    requires text != [] && text[|text| - 1] == NUL
  {
    match Component(text, 0, DOT)
    case None => None
    case Some((major, at)) =>
      match Component(text, at, DOT)
      case None => None
      case Some((minor, at')) =>
        match Component(text, at', NUL)
        case None => None
        case Some((patch, _)) => Some(Version(major, minor, patch))
  }

  /** `parseVersionComponent` */
  method ParseComponent(text: seq<byte>, cursor: nat, separator: byte)
    returns (ok: bool, value: uint16, next: nat)
    requires cursor < |text| && !IsDigitCode(text[|text| - 1])
    ensures ok <==> Component(text, cursor, separator).Some?
    ensures ok ==> Component(text, cursor, separator) == Some((value, next))
  {
    value, next := 0, cursor;
    if text[next] < 48 || text[next] > 57 ||
       (text[next] == 48 && text[next + 1] >= 48 && text[next + 1] <= 57) {
      return false, value, next;
    }
    var parsed := 0;
    while true
      invariant cursor <= next < |text| && IsDigitCode(text[next]) && 0 <= parsed <= UINT16_MAX
      invariant Digits(text, next, parsed) == Digits(text, cursor, 0)
      decreases |text| - next
    {
      parsed := 10 * parsed + text[next] - 48;
      if parsed > UINT16_MAX {
        return false, value, next;
      }
      next := next + 1;
      if text[next] < 48 || text[next] > 57 {
        break;
      }
    }
    if text[next] != separator {
      return false, value, next;
    }
    value := parsed;
    if separator != NUL {
      next := next + 1;
    }
    ok := true;
  }

  /** `parseVersion` */
  method ParseVersion(text: seq<byte>) returns (version: Option<Version>)
    requires text != [] && text[|text| - 1] == NUL
    ensures version == Parse(text)
  {
    var ok, major, minor, patch, cursor;
    ok, major, cursor := ParseComponent(text, 0, DOT);
    if !ok { return None; }
    ok, minor, cursor := ParseComponent(text, cursor, DOT);
    if !ok { return None; }
    ok, patch, cursor := ParseComponent(text, cursor, NUL);
    if !ok { return None; }
    return Some(Version(major, minor, patch));
  }

  // ----- decimals

  lemma DecimalExtends(n: nat, d: nat)
    requires 0 < n && d < 10
    ensures Decimal(10 * n + d) == Decimal(n) + [48 + d]
  {
    assert (10 * n + d) / 10 == n && (10 * n + d) % 10 == d;
  }

  lemma {:induction false} DecimalHead(n: nat)
    ensures Decimal(n)[0] == 48 ==> n == 0
  {
    if n >= 10 {
      DecimalHead(n / 10);
    }
  }

  lemma {:induction false} DecimalLength(n: nat)
    ensures n < 10 ==> |Decimal(n)| == 1
    ensures n < 100000 ==> |Decimal(n)| <= 5
  {
    if n >= 10 {
      assert |Decimal(n)| == |Decimal(n / 10)| + 1;
      if n / 10 >= 10 {
        assert |Decimal(n / 10)| == |Decimal(n / 100)| + 1;
        if n / 100 >= 10 {
          assert |Decimal(n / 100)| == |Decimal(n / 1000)| + 1;
          if n / 1000 >= 10 {
            assert |Decimal(n / 1000)| == |Decimal(n / 10000)| + 1;
          }
        }
      }
    }
  }

  /** A decimal that begins another one is no larger; decimals of equal text are equal. */
  lemma {:induction false} DecimalPrefix(v: nat, n: nat)
    requires Decimal(v) <= Decimal(n)
    ensures v <= n
    ensures |Decimal(v)| == |Decimal(n)| ==> v == n
    decreases n
  {
    if n < 10 {
      assert v < 10 by { assert v >= 10 ==> |Decimal(v)| >= 2; }
      assert Decimal(v)[0] == Decimal(n)[0];
    } else if |Decimal(v)| == |Decimal(n)| {
      assert v >= 10 by { assert |Decimal(n)| >= 2; }
      assert Decimal(v / 10) == Decimal(v)[..|Decimal(v)| - 1];
      assert Decimal(n / 10) == Decimal(n)[..|Decimal(n)| - 1];
      DecimalPrefix(v / 10, n / 10);
      assert Decimal(v)[|Decimal(v)| - 1] == Decimal(n)[|Decimal(n)| - 1];
    } else {
      assert Decimal(v) <= Decimal(n)[..|Decimal(n)| - 1];
      assert Decimal(n / 10) == Decimal(n)[..|Decimal(n)| - 1];
      DecimalPrefix(v, n / 10);
    }
  }

  // ----- the digit loop reads exactly the canonical decimals

  lemma {:induction false} DigitsSound(text: seq<byte>, start: nat, at: nat, parsed: nat)
    requires start <= at < |text| && IsDigitCode(text[at]) && !IsDigitCode(text[|text| - 1])
    requires if at == start then parsed == 0 && (text[at] == 48 ==> !IsDigitCode(text[at + 1]))
             else parsed > 0 && text[start..at] == Decimal(parsed)
    ensures var r := Digits(text, at, parsed);
      r.Some? ==> text[start..r.value.1] == Decimal(r.value.0)
    decreases |text| - at
  {
    var d := text[at] - 48;
    var value := 10 * parsed + d;
    assert text[start..at + 1] == text[start..at] + [text[at]];
    if at > start {
      DecimalExtends(parsed, d);
    }
    assert text[start..at + 1] == Decimal(value);
    if value <= UINT16_MAX && IsDigitCode(text[at + 1]) {
      DigitsSound(text, start, at + 1, value);
    }
  }

  lemma {:induction false} DigitsComplete(text: seq<byte>, start: nat, at: nat, parsed: nat, n: uint16, end: nat)
    requires start <= at < end < |text| && IsDigitCode(text[at]) && !IsDigitCode(text[|text| - 1])
    requires text[start..end] == Decimal(n) && !IsDigitCode(text[end])
    requires if at == start then parsed == 0
             else parsed > 0 && text[start..at] == Decimal(parsed)
    ensures Digits(text, at, parsed) == Some((n, end))
    decreases |text| - at
  {
    var d := text[at] - 48;
    var value := 10 * parsed + d;
    assert text[start..at + 1] == text[start..at] + [text[at]];
    if at > start {
      DecimalExtends(parsed, d);
    }
    assert Decimal(value) == text[start..at + 1] == text[start..end][..at + 1 - start];
    DecimalPrefix(value, n);
    if at + 1 < end {
      assert text[at + 1] == text[start..end][at + 1 - start];
      assert value > 0 by {
        if value == 0 { DecimalHead(n); }
      }
      DigitsComplete(text, start, at + 1, value, n, end);
    }
  }

  /** A component is read exactly when it is a canonical decimal below 2^16 before the separator. */
  lemma ComponentIff(text: seq<byte>, at: nat, separator: byte, n: uint16, end: nat)
    requires at < |text| && !IsDigitCode(text[|text| - 1]) && !IsDigitCode(separator)
    requires at < end < |text|
    ensures Component(text, at, separator) == Some((n, if separator != NUL then end + 1 else end))
       <==> text[at..end] == Decimal(n) && text[end] == separator
  {
    if IsDigitCode(text[at]) && !(text[at] == 48 && IsDigitCode(text[at + 1])) {
      DigitsSound(text, at, at, 0);
    }
    if text[at..end] == Decimal(n) && text[end] == separator {
      assert text[at] == Decimal(n)[0];
      DecimalHead(n);
      if n == 0 {
        assert end == at + 1;
      }
      DigitsComplete(text, at, at, 0, n, end);
    }
  }

  // ----- print and parse undo each other

  function Print(v: Version): seq<byte> {
    Decimal(v.major) + [DOT] + Decimal(v.minor) + [DOT] + Decimal(v.patch)
  }

  /** The 32-byte version field of a descriptor. */
  function Field(v: Version): (field: seq<byte>)
    ensures |field| == 32
  {
    DecimalLength(v.major);
    DecimalLength(v.minor);
    DecimalLength(v.patch);
    Print(v) + Zeros(32 - |Print(v)|)
  }

  lemma PrintIsText(v: Version)
    ensures Print(v) != [] && forall i | 0 <= i < |Print(v)| :: Print(v)[i] != 0
  {
  }

  lemma {:induction false} TerminatorOfText(text: seq<byte>, zeros: nat, from: nat)
    requires from <= |text| && zeros > 0
    requires forall i | 0 <= i < |text| :: text[i] != 0
    ensures Terminator(text + Zeros(zeros), from) == |text|
    decreases |text| - from
  {
    if from < |text| {
      TerminatorOfText(text, zeros, from + 1);
    }
  }

  /** Where the pieces of a version field lie. */
  lemma FieldSlices(v: Version, text: seq<byte>, a: nat, b: nat, c: nat)
    requires a == |Decimal(v.major)| && b == a + 1 + |Decimal(v.minor)| && c == b + 1 + |Decimal(v.patch)|
    requires c < |text|
    ensures text[..c] == Print(v) <==>
      && text[0..a] == Decimal(v.major) && text[a] == DOT
      && text[a + 1..b] == Decimal(v.minor) && text[b] == DOT
      && text[b + 1..c] == Decimal(v.patch)
  {
    hide Decimal;
    var p := Print(v);
    assert p[0..a] == Decimal(v.major) && p[a] == DOT;
    assert p[a + 1..b] == Decimal(v.minor) && p[b] == DOT;
    assert p[b + 1..c] == Decimal(v.patch);
    var t := text[..c];
    assert t == t[0..a] + [t[a]] + t[a + 1..b] + [t[b]] + t[b + 1..c];
    assert t[0..a] == text[0..a] && t[a + 1..b] == text[a + 1..b] && t[b + 1..c] == text[b + 1..c];
  }

  lemma ParsePrint(v: Version)
    ensures Canonical(Field(v)) && Parse(Field(v)) == Some(v)
  {
    hide Decimal, Component, Terminator;
    DecimalLength(v.major);
    DecimalLength(v.minor);
    DecimalLength(v.patch);
    PrintIsText(v);
    var text := Field(v);
    TerminatorOfText(Print(v), 32 - |Print(v)|, 0);
    var a := |Decimal(v.major)|;
    var b := a + 1 + |Decimal(v.minor)|;
    var c := b + 1 + |Decimal(v.patch)|;
    assert text[..c] == Print(v) && text[c] == NUL;
    FieldSlices(v, text, a, b, c);
    ComponentIff(text, 0, DOT, v.major, a);
    ComponentIff(text, a + 1, DOT, v.minor, b);
    ComponentIff(text, b + 1, NUL, v.patch, c);
  }

  lemma PrintParse(field: seq<byte>, v: Version)
    requires |field| == 32 && Canonical(field) && Parse(field) == Some(v)
    ensures field == Field(v)
  {
    hide Decimal, Terminator;
    var a := Component(field, 0, DOT).value.1 - 1;
    var b := Component(field, a + 1, DOT).value.1 - 1;
    var c := Component(field, b + 1, NUL).value.1;
    hide Component, Digits;
    ComponentIff(field, 0, DOT, v.major, a);
    ComponentIff(field, a + 1, DOT, v.minor, b);
    ComponentIff(field, b + 1, NUL, v.patch, c);
    FieldSlices(v, field, a, b, c);
    PrintIsText(v);
    var end := Terminator(field, 0);
    assert forall i | 0 <= i < c :: field[..c][i] != 0;
    assert field[c..] == Zeros(32 - c);
    assert field == field[..c] + field[c..];
  }

  /** The version field is accepted exactly when it is the canonical text of a triple, which is what it parses to. */
  lemma VersionFieldIff(field: seq<byte>, v: Version)
    requires |field| == 32
    ensures Canonical(field) && Parse(field) == Some(v) <==> field == Field(v)
  {
    hide Parse, Field;
    ParsePrint(v);
    if Canonical(field) && Parse(field) == Some(v) {
      PrintParse(field, v);
    }
  }

  /** The decimal of a version component is what the core prints for the number. */
  lemma {:induction false} DecimalIsPrinted(n: nat)
    ensures var text := NumberText.Numeral(n, 10);
      |Decimal(n)| == |text| && forall i | 0 <= i < |text| :: Decimal(n)[i] == text[i] as int
    decreases n
  {
    if n >= 10 {
      DecimalIsPrinted(n / 10);
    }
  }
}
