/** The two pieces of java.lang.String the setter check relies on:
    `split` on the literal "set" (only that separator) and
    `equalsIgnoreCase` (with ASCII case mapping). */
module JavaStrings {
  import opened Meta

  const SetterPrefix: string := "set"

  predicate StartsWithSet(s: string) {
    |s| >= 3 && s[..3] == SetterPrefix
  }

  /** Does "set" occur anywhere in `s`? */
  predicate ContainsSet(s: string) {
    exists i :: 0 <= i <= |s| - 3 && StartsWithSet(s[i..])
  }

  /** The pieces of `s` between the occurrences of "set", found left to
      right without overlap; `cur` is the piece collected so far. Keeps
      every piece, empty ones included. */
  function SplitParts(s: string, cur: string): (parts: seq<string>)
    ensures |parts| >= 1
    decreases |s|
  {
    if s == [] then [cur]
    else if StartsWithSet(s) then [cur] + SplitParts(s[3..], [])
    else SplitParts(s[1..], cur + [s[0]])
  }

  /** Drops the empty strings at the end, as `split` with limit 0 does. */
  function TrimTrailingEmpty(parts: seq<string>): (r: seq<string>)
    ensures |r| <= |parts| && r == parts[..|r|]
    ensures forall j :: |r| <= j < |parts| ==> parts[j] == []
    ensures r != [] ==> r[|r| - 1] != []
  {
    if parts == [] then []
    else if parts[|parts| - 1] == [] then TrimTrailingEmpty(parts[..|parts| - 1])
    else parts
  }

  /** `s.split("set")`: an input without a match comes back whole,
      otherwise the pieces with the trailing empty ones dropped. */
  function JavaSplit(s: string): seq<string> {
    if !ContainsSet(s) then [s] else TrimTrailingEmpty(SplitParts(s, []))
  }

  /** `s` is "set" repeated zero or more times. */
  predicate OnlySetRuns(s: string)
    decreases |s|
  {
    s == [] || (StartsWithSet(s) && OnlySetRuns(s[3..]))
  }

  /** The longest prefix of `s` that does not reach an occurrence of "set". */
  function FirstSegment(s: string): (r: string)
    ensures |r| <= |s| && r == s[..|r|]
    ensures |r| == |s| || StartsWithSet(s[|r|..])
    ensures forall i :: 0 <= i < |r| ==> !StartsWithSet(s[i..])
    decreases |s|
  {
    if s == [] || StartsWithSet(s) then []
    else
      var rest := FirstSegment(s[1..]);
      FirstSegmentStep(s, rest);
      [s[0]] + rest
  }

  lemma FirstSegmentStep(s: string, rest: string)
    requires s != [] && !StartsWithSet(s) && |rest| <= |s| - 1
    requires rest == s[1..][..|rest|]
    requires |rest| == |s| - 1 || StartsWithSet(s[1..][|rest|..])
    requires forall i :: 0 <= i < |rest| ==> !StartsWithSet(s[1..][i..])
    ensures [s[0]] + rest == s[..|rest| + 1]
    ensures |rest| + 1 == |s| || StartsWithSet(s[|rest| + 1..])
    ensures forall i :: 0 <= i < |rest| + 1 ==> !StartsWithSet(s[i..])
  {
    assert s[1..][|rest|..] == s[|rest| + 1..];
    forall i | 0 <= i < |rest| + 1 ensures !StartsWithSet(s[i..]) {
      if i > 0 { assert s[i..] == s[1..][i - 1..]; }
    }
  }

  /** `name.split("set")[1]` for a name that starts with "set": the text
      between the leading "set" and the next one. When only further "set"s
      follow, `split` yields fewer than two pieces and indexing fails. */
  function SetterSuffix(name: string): Result<string, Failure>
    requires StartsWithSet(name)
  {
    if OnlySetRuns(name[3..]) then Failure(IndexOutOfBounds(name))
    else Success(FirstSegment(name[3..]))
  }

  ghost predicate AllEmpty(parts: seq<string>) {
    forall j :: 0 <= j < |parts| ==> parts[j] == []
  }

  lemma {:induction false} SplitPartsHead(s: string, cur: string)
    ensures SplitParts(s, cur)[0] == cur + FirstSegment(s)
    decreases |s|
  {
    if s == [] || StartsWithSet(s) {
    } else {
      SplitPartsHead(s[1..], cur + [s[0]]);
    }
  }

  lemma {:induction false} SplitPartsAllEmpty(s: string, cur: string)
    ensures AllEmpty(SplitParts(s, cur)) <==> cur == [] && OnlySetRuns(s)
    decreases |s|
  {
    var parts := SplitParts(s, cur);
    if s == [] {
      assert parts == [cur] && parts[0] == cur;
    } else if StartsWithSet(s) {
      SplitPartsAllEmpty(s[3..], []);
      var tail := SplitParts(s[3..], []);
      assert parts == [cur] + tail;
      assert AllEmpty(parts) <==> cur == [] && AllEmpty(tail) by {
        assert parts[0] == cur;
        forall j | 0 <= j < |tail| ensures parts[j + 1] == tail[j] { }
      }
    } else {
      SplitPartsAllEmpty(s[1..], cur + [s[0]]);
    }
  }

  lemma TrimKeepsTwo(parts: seq<string>)
    requires |parts| >= 1
    ensures |TrimTrailingEmpty(parts)| >= 2 <==> !AllEmpty(parts[1..])
    ensures |TrimTrailingEmpty(parts)| >= 2 ==> TrimTrailingEmpty(parts)[1] == parts[1]
  {
    var r := TrimTrailingEmpty(parts);
    if |r| >= 2 {
      assert parts[1..][|r| - 2] == r[|r| - 1];
    }
    if !AllEmpty(parts[1..]) {
      var j :| 0 <= j < |parts[1..]| && parts[1..][j] != [];
      assert parts[j + 1] != [];
    }
  }

  /** The setter suffix is exactly element 1 of Java's split, and the index
      error happens exactly when that element does not exist. */
  lemma SetterSuffixIsSplitElementOne(name: string)
    requires StartsWithSet(name)
    ensures |JavaSplit(name)| >= 2 <==> SetterSuffix(name).Success?
    ensures SetterSuffix(name).Success? ==> JavaSplit(name)[1] == SetterSuffix(name).value
  {
    assert ContainsSet(name) by { assert name[0..] == name; }
    var rest := name[3..];
    var parts := SplitParts(name, []);
    assert parts == [[]] + SplitParts(rest, []);
    assert parts[1..] == SplitParts(rest, []);
    TrimKeepsTwo(parts);
    SplitPartsAllEmpty(rest, []);
    SplitPartsHead(rest, []);
  }

  /** One character of `regionMatches(true, ...)`: equal, equal upper
      cases, or equal lower cases of the upper cases. */
  predicate CharEqualsIgnoreCase(a: char, b: char) {
    a == b || ToUpper(a) == ToUpper(b) || ToLower(ToUpper(a)) == ToLower(ToUpper(b))
  }

  function ToUpper(c: char): char {
    if 'a' <= c <= 'z' then (c as int - 32) as char else c
  }

  function ToLower(c: char): char {
    if 'A' <= c <= 'Z' then (c as int + 32) as char else c
  }

  /** `a.equalsIgnoreCase(b)`: same length, every character matching. */
  predicate EqualsIgnoreCase(a: string, b: string) {
    |a| == |b| && forall i :: 0 <= i < |a| ==> CharEqualsIgnoreCase(a[i], b[i])
  }
}
