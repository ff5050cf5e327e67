/** Splitting text at a separator. */
module TextSplit {
  import opened Bytes

  predicate IsDigit(c: char) { IsDigitCode(c as int) }

  function Split(s: string, separator: char): (parts: seq<string>)
    ensures |parts| > 0
  {
    if s == "" then [""]
    else if s[0] == separator then [""] + Split(s[1..], separator)
    else
      var rest := Split(s[1..], separator);
      [[s[0]] + rest[0]] + rest[1..]
  }

  /** Where the part around position `from` ends. */
  function PartEnd(s: string, from: nat, separator: char): (end: nat)
    requires from <= |s|
    ensures from <= end <= |s|
    ensures end < |s| ==> s[end] == separator
    ensures separator !in s[from..end]
    decreases |s| - from
  {
    if from < |s| && s[from] != separator then
      var end := PartEnd(s, from + 1, separator);
      assert s[from..end] == [s[from]] + s[from + 1..end];
      end
    else from
  }

  /** Joining with the separator is undone by splitting. */
  lemma {:induction false} SplitJoined(first: string, rest: string, separator: char)
    requires separator !in first
    ensures Split(first + [separator] + rest, separator) == [first] + Split(rest, separator)
    decreases |first|
  {
    var s := first + [separator] + rest;
    if first == "" {
      assert s[1..] == rest;
    } else {
      SplitJoined(first[1..], rest, separator);
      assert s[1..] == first[1..] + [separator] + rest;
      assert first == [first[0]] + first[1..];
    }
  }

  lemma {:induction false} SplitWhole(s: string, separator: char)
    requires separator !in s
    ensures Split(s, separator) == [s]
    decreases |s|
  {
    if s != "" {
      SplitWhole(s[1..], separator);
      assert s == [s[0]] + s[1..];
    }
  }

  /** The part that starts at `from` is the first one of what is left. */
  lemma SplitAt(s: string, from: nat, separator: char)
    requires from <= |s|
    ensures var end := PartEnd(s, from, separator);
      Split(s[from..], separator)
      == if end < |s| then [s[from..end]] + Split(s[end + 1..], separator) else [s[from..end]]
  {
    hide PartEnd, Split;
    var end := PartEnd(s, from, separator);
    if end < |s| {
      assert s[from..] == s[from..end] + [separator] + s[end + 1..];
      SplitJoined(s[from..end], s[end + 1..], separator);
    } else {
      assert s[from..end] == s[from..];
      SplitWhole(s[from..], separator);
    }
  }
}
