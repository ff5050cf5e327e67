/** The MQTT client's topic filter matcher, against the level rules of section 4.7.1 of MQTT 3.1.1. */
module TopicFilter {
  import opened TextSplit

  /** The text between two separators. */
  type Level = string

  predicate Plain(level: Level) { '+' !in level && '#' !in level }

  /** Wildcards stand alone in a level, and `#` only in the last one. */
  predicate WellFormed(levels: seq<Level>) {
    forall i | 0 <= i < |levels| :: Plain(levels[i]) || levels[i] == "+" || (levels[i] == "#" && i == |levels| - 1)
  }

  /** The rules of the standard: `+` matches any one level, `#` the parent and any number of levels below it. */
  predicate Matches(filter: seq<Level>, name: seq<Level>) {
    if filter == [] then name == []
    else if filter == ["#"] then true
    else name != [] && (filter[0] == "+" || filter[0] == name[0]) && Matches(filter[1..], name[1..])
  }

  /** Every wildcard meets a level that is there and is not empty. */
  predicate WildcardsFed(filter: seq<Level>, name: seq<Level>) {
    forall i | 0 <= i < |filter| :: (filter[i] == "+" || filter[i] == "#") ==> i < |name| && name[i] != ""
  }

  // ----- the matcher

  /** The matcher as a function of what is left of the two strings. */
  predicate Walk(filter: string, name: string)
    decreases |filter|
  {
    if filter == "" || name == "" then filter == "" && name == ""
    else if name[0] == '/' && filter[0] != '/' then false
    else if filter[0] == '+' then Walk(filter[1..], name[PartEnd(name, 1, '/')..])
    else if filter[0] == '#' then Walk(filter[1..], "")
    else filter[0] == name[0] && Walk(filter[1..], name[1..])
  }

  /** `isTopicMatched`: two cursors, moved character by character. */
  method IsTopicMatched(filter: string, name: string) returns (matched: bool)
    requires WellFormed(Split(filter, '/'))
    ensures matched <==>
      Matches(Split(filter, '/'), Split(name, '/')) && WildcardsFed(Split(filter, '/'), Split(name, '/'))
  {
    hide Matches, WildcardsFed, WellFormed, Split, PartEnd;
    Decides(filter, name);
    var f, n := 0, 0;
    assert filter[0..] == filter && name[0..] == name;
    while f < |filter| && n < |name|
      invariant 0 <= f <= |filter| && 0 <= n <= |name|
      invariant Walk(filter[f..], name[n..]) == Walk(filter, name)
      decreases |filter| - f
    {
      ghost var from := n;
      assert filter[f..][1..] == filter[f + 1..] && name[n..][1..] == name[n + 1..];
      if name[n] == '/' && filter[f] != '/' {
        break;
      }
      if filter[f] != '+' && filter[f] != '#' && filter[f] != name[n] {
        break;
      }
      if filter[f] == '+' {
        LevelEndShifts(name, from, 1);
        n := SkipLevel(name, n);
        assert name[from..][PartEnd(name[from..], 1, '/')..] == name[n + 1..];
      } else if filter[f] == '#' {
        n := |name| - 1;
        assert name[n + 1..] == "";
      }
      f := f + 1;
      n := n + 1;
    }
    matched := n == |name| && f == |filter|;
  }

  /** The inner loop: skip to the last character before the next separator or the end. */
  method SkipLevel(name: string, start: nat) returns (n: nat)
    requires start < |name|
    ensures start <= n < |name| && n + 1 == PartEnd(name, start + 1, '/')
  {
    n := start;
    var next := n + 1;
    while next < |name| && name[next] != '/'
      invariant start <= n < |name| && next == n + 1
      invariant PartEnd(name, next, '/') == PartEnd(name, start + 1, '/')
      decreases |name| - n
    {
      n := n + 1;
      next := n + 1;
    }
  }

  lemma {:induction false} LevelEndShifts(name: string, k: nat, i: nat)
    requires k + i <= |name|
    ensures PartEnd(name[k..], i, '/') + k == PartEnd(name, k + i, '/')
    decreases |name| - i
  {
    if k + i < |name| && name[k + i] != '/' {
      LevelEndShifts(name, k, i + 1);
    }
  }

  // ----- the matcher decides the strict form of the rules

  /** The rules with the extra demand that a wildcard consumes a level that is not empty. */
  predicate Strict(filter: seq<Level>, name: seq<Level>) {
    if filter == [] then name == []
    else if filter == ["#"] then name != [] && name[0] != ""
    else
      && name != []
      && (if filter[0] == "+" then name[0] != "" else filter[0] == name[0])
      && Strict(filter[1..], name[1..])
  }

  lemma {:induction false} StrictIff(filter: seq<Level>, name: seq<Level>)
    ensures Strict(filter, name) <==> Matches(filter, name) && WildcardsFed(filter, name)
    decreases |filter|
  {
    if filter == ["#"] {
      assert filter[0] == "#";
    } else if filter != [] && name != [] {
      StrictIff(filter[1..], name[1..]);
      FedSplits(filter, name);
    }
  }

  lemma FedSplits(filter: seq<Level>, name: seq<Level>)
    requires filter != [] && name != []
    ensures WildcardsFed(filter, name) <==>
      && ((filter[0] == "+" || filter[0] == "#") ==> name[0] != "")
      && WildcardsFed(filter[1..], name[1..])
  {
    if WildcardsFed(filter[1..], name[1..]) && ((filter[0] == "+" || filter[0] == "#") ==> name[0] != "") {
      forall i | 0 <= i < |filter| && (filter[i] == "+" || filter[i] == "#")
        ensures i < |name| && name[i] != ""
      {
        if i > 0 {
          assert filter[1..][i - 1] == filter[i];
        }
      }
    }
    if WildcardsFed(filter, name) {
      forall i | 0 <= i < |filter[1..]| && (filter[1..][i] == "+" || filter[1..][i] == "#")
        ensures i < |name[1..]| && name[1..][i] != ""
      {
        assert filter[i + 1] == filter[1..][i];
      }
    }
  }

  lemma SplitHead(s: string)
    ensures Split(s, '/')[0] == "" <==> s == "" || s[0] == '/'
    ensures s != "" && s[0] != '/' ==> Split(s, '/')[0][0] == s[0]
    ensures |Split(s, '/')| == 1 && Split(s, '/')[0] == "" <==> s == ""
  {
  }

  /** Splitting a name at the end of its first level. */
  lemma {:induction false} SplitAtLevel(s: string)
    ensures var end := PartEnd(s, 0, '/');
      Split(s, '/')[0] == s[..end] && Split(s, '/')[1..] == Split(s[end..], '/')[1..]
    decreases |s|
  {
    var end := PartEnd(s, 0, '/');
    if s == "" || s[0] == '/' {
      assert s[end..] == s;
    } else {
      LevelEndShifts(s, 1, 0);
      var rest, parts := s[1..], Split(s[1..], '/');
      assert PartEnd(rest, 0, '/') == end - 1;
      assert Split(s, '/') == [[s[0]] + parts[0]] + parts[1..];
      hide Split, PartEnd;
      SplitAtLevel(rest);
      assert rest[end - 1..] == s[end..];
      assert s[..end] == [s[0]] + rest[..end - 1];
    }
  }

  lemma WellFormedTail(levels: seq<Level>, head: Level)
    requires levels != [] && WellFormed(levels) && Plain(head)
    ensures WellFormed([head] + levels[1..]) && (|levels| > 1 ==> WellFormed(levels[1..]))
  {
    var tail := [head] + levels[1..];
    forall i | 0 <= i < |tail|
      ensures Plain(tail[i]) || tail[i] == "+" || (tail[i] == "#" && i == |tail| - 1)
    {
      if i > 0 { assert tail[i] == levels[i]; }
    }
    var rest := levels[1..];
    forall i | 0 <= i < |rest|
      ensures Plain(rest[i]) || rest[i] == "+" || (rest[i] == "#" && i == |rest| - 1)
    {
      assert rest[i] == levels[i + 1];
    }
  }

  /** The first level of a well-formed filter that does not start with a separator. */
  lemma FirstLevel(filter: string)
    requires WellFormed(Split(filter, '/')) && filter != "" && filter[0] != '/'
    ensures var fs := Split(filter, '/');
      && (filter[0] == '+' ==> fs[0] == "+")
      && (filter[0] == '#' ==> fs == ["#"] && filter == "#")
      && (filter[0] != '+' && filter[0] != '#' ==> Plain(fs[0]))
  {
    var fs := Split(filter, '/');
    SplitHead(filter);
    assert fs[0][0] in fs[0];
    if filter[0] == '#' {
      assert fs[0] == "#" && |fs| == 1;
      var rest := Split(filter[1..], '/');
      assert ['#'] + rest[0] == "#";
      assert rest[0] == "" && |rest| == 1;
      SplitHead(filter[1..]);
    }
  }

  lemma EmptyName(filter: string)
    requires filter != ""
    ensures !Strict(Split(filter, '/'), [""])
  {
    var fs := Split(filter, '/');
    SplitHead(filter);
    if filter[0] == '/' {
      assert fs[1..] == Split(filter[1..], '/');
      assert !Strict(fs[1..], []);
    }
  }

  lemma LiteralStep(filter: string, name: string)
    requires WellFormed(Split(filter, '/')) && filter != "" && name != "" && filter[0] == name[0]
    requires filter[0] !in "/+#"
    ensures WellFormed(Split(filter[1..], '/'))
    ensures Strict(Split(filter, '/'), Split(name, '/')) <==> Strict(Split(filter[1..], '/'), Split(name[1..], '/'))
  {
    var fs, ns, rf, rn := Split(filter, '/'), Split(name, '/'), Split(filter[1..], '/'), Split(name[1..], '/');
    FirstLevel(filter);
    assert fs[0] == [filter[0]] + rf[0] && ns[0] == [name[0]] + rn[0];
    assert forall c | c in rf[0] :: c in fs[0];
    WellFormedTail(fs, rf[0]);
    assert [rf[0]] + fs[1..] == rf;
    assert fs[0] == ns[0] <==> rf[0] == rn[0] by {
      assert fs[0][1..] == rf[0] && ns[0][1..] == rn[0];
    }
    assert fs[1..] == rf[1..] && ns[1..] == rn[1..];
  }

  lemma PlusStep(filter: string, name: string)
    requires WellFormed(Split(filter, '/')) && filter != "" && name != "" && filter[0] == '+' && name[0] != '/'
    ensures WellFormed(Split(filter[1..], '/'))
    ensures Strict(Split(filter, '/'), Split(name, '/'))
      <==> Strict(Split(filter[1..], '/'), Split(name[PartEnd(name, 1, '/')..], '/'))
  {
    var end := PartEnd(name, 1, '/');
    var fs, ns, rf, rn := Split(filter, '/'), Split(name, '/'), Split(filter[1..], '/'), Split(name[end..], '/');
    FirstLevel(filter);
    assert fs[0] == "+" && fs[0] == ['+'] + rf[0];
    assert rf[0] == "";
    WellFormedTail(fs, "");
    assert [""] + fs[1..] == rf;
    SplitAtLevel(name);
    assert PartEnd(name, 0, '/') == end;
    SplitHead(name[end..]);
    assert rn[0] == "" && ns[0] != "";
    assert Strict(rf, rn) <==> Strict(rf[1..], rn[1..]);
  }

  lemma {:induction false} WalkIsStrict(filter: string, name: string)
    requires WellFormed(Split(filter, '/'))
    ensures Walk(filter, name) <==> Strict(Split(filter, '/'), Split(name, '/'))
    decreases |filter|
  {
    var fs, ns := Split(filter, '/'), Split(name, '/');
    SplitHead(filter);
    SplitHead(name);
    if filter == "" {
      assert fs == [""];
      assert Strict(fs[1..], ns[1..]) <==> ns[1..] == [];
    } else if name == "" {
      EmptyName(filter);
    } else if filter[0] == '/' {
      assert fs[1..] == Split(filter[1..], '/');
      WellFormedTail(fs, "");
      if name[0] == '/' {
        assert ns[1..] == Split(name[1..], '/');
        WalkIsStrict(filter[1..], name[1..]);
      }
    } else {
      FirstLevel(filter);
      if name[0] != '/' && filter[0] == '+' {
        PlusStep(filter, name);
        WalkIsStrict(filter[1..], name[PartEnd(name, 1, '/')..]);
      } else if name[0] != '/' && filter[0] != '#' && filter[0] == name[0] {
        LiteralStep(filter, name);
        WalkIsStrict(filter[1..], name[1..]);
      }
    }
  }

  /** The matcher accepts exactly the matches of the standard whose wildcards all meet a non-empty level. */
  lemma Decides(filter: string, name: string)
    requires WellFormed(Split(filter, '/'))
    ensures Walk(filter, name)
      <==> Matches(Split(filter, '/'), Split(name, '/')) && WildcardsFed(Split(filter, '/'), Split(name, '/'))
  {
    hide Walk, Matches, WildcardsFed, Strict;
    WalkIsStrict(filter, name);
    StrictIff(Split(filter, '/'), Split(name, '/'));
  }

  /** Where the matcher is narrower than the standard: a wildcard over an empty level, and `#` over its parent. */
  lemma NarrowerThanTheStandard()
    ensures Matches(Split("a/+", '/'), Split("a/", '/')) && !Walk("a/+", "a/")
    ensures Matches(Split("a/#", '/'), Split("a", '/')) && !Walk("a/#", "a")
    ensures Matches(Split("#", '/'), Split("/a", '/')) && !Walk("#", "/a")
  {
    SplitTwo("a", "+");
    SplitTwo("a", "");
    SplitTwo("a", "#");
    SplitTwo("", "a");
    SplitWhole("a", '/');
    SplitWhole("#", '/');
    assert "a" + ['/'] + "+" == "a/+" && "a" + ['/'] + "" == "a/" && "a" + ['/'] + "#" == "a/#"
      && "" + ['/'] + "a" == "/a";
    assert ["a", "+"][1..] == ["+"] && ["a", ""][1..] == [""] && ["a", "#"][1..] == ["#"];
    assert "a/+"[1..] == "/+" && "/+"[1..] == "+" && "a/"[1..] == "/" && "/"[1..] == "";
    assert "a/#"[1..] == "/#" && "a"[1..] == "";
  }

  lemma SplitTwo(first: Level, second: Level)
    requires '/' !in first && '/' !in second
    ensures Split(first + ['/'] + second, '/') == [first, second]
  {
    SplitJoined(first, second, '/');
    SplitWhole(second, '/');
  }
}
