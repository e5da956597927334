/**
 * The few .NET string operations the profile code relies on, written out over
 * `seq<char>`: Split on a character or on a separator string, Join, the
 * line split used by every log loader, Trim, ToLower, Replace and Contains.
 * Each comes with the round-trip lemmas the codecs need.
 */
module Text {
  import opened Wrappers

  // ---------------------------------------------------------------------------
  // Character classes

  /** Char.IsWhiteSpace, restricted to the ASCII and Latin-1 white-space characters. */
  predicate IsWhiteSpace(c: char) {
    c == ' ' || c == '\t' || c == '\n' || c == '\r'
    || c as int == 0x0B || c as int == 0x0C || c as int == 0x85 || c as int == 0xA0
  }

  /** Char.ToLower on the ASCII upper-case letters; other characters are unchanged. */
  function LowerChar(c: char): char {
    if 'A' <= c <= 'Z' then (c as int + 32) as char else c
  }

  function ToLower(s: string): (r: string)
    ensures |r| == |s|
    ensures forall i :: 0 <= i < |s| ==> r[i] == LowerChar(s[i])
  {
    seq(|s|, i requires 0 <= i < |s| => LowerChar(s[i]))
  }

  /** Lower-casing twice is lower-casing once. */
  lemma ToLowerIdempotent(s: string)
    ensures ToLower(ToLower(s)) == ToLower(s)
  {
  }

  /** String.Equals(a, b, CurrentCultureIgnoreCase), with ASCII case folding. */
  predicate EqualsIgnoreCase(a: string, b: string) {
    ToLower(a) == ToLower(b)
  }

  /** String.Replace(a, b) for single characters. */
  function Replace(s: string, a: char, b: char): (r: string)
    ensures |r| == |s|
    ensures forall i :: 0 <= i < |s| ==> r[i] == (if s[i] == a then b else s[i])
  {
    seq(|s|, i requires 0 <= i < |s| => if s[i] == a then b else s[i])
  }

  /** Replacing '_' by ' ' and back gives the original text when it had no space. */
  lemma ReplaceRoundTrip(s: string, a: char, b: char)
    requires b !in s
    ensures Replace(Replace(s, a, b), b, a) == s
  {
    var r := Replace(Replace(s, a, b), b, a);
    assert |r| == |s|;
    forall i | 0 <= i < |s| ensures r[i] == s[i] {
      assert s[i] != b;
    }
  }

  // ---------------------------------------------------------------------------
  // Trim

  function TrimStart(s: string): (r: string)
    ensures |r| <= |s| && r == s[|s| - |r|..]
    ensures r == [] || !IsWhiteSpace(r[0])
    decreases |s|
  {
    if |s| > 0 && IsWhiteSpace(s[0]) then TrimStart(s[1..]) else s
  }

  function TrimEnd(s: string): (r: string)
    ensures |r| <= |s| && r == s[..|r|]
    ensures r == [] || !IsWhiteSpace(r[|r| - 1])
    decreases |s|
  {
    if |s| > 0 && IsWhiteSpace(s[|s| - 1]) then TrimEnd(s[..|s| - 1]) else s
  }

  /** String.Trim(): the text without leading and trailing white space. */
  function Trim(s: string): (r: string)
    ensures |r| <= |s|
    ensures r == [] || (!IsWhiteSpace(r[0]) && !IsWhiteSpace(r[|r| - 1]))
  {
    TrimEnd(TrimStart(s))
  }

  /** A text that starts and ends with a non-white character is its own Trim. */
  lemma TrimNoop(s: string)
    requires s == [] || (!IsWhiteSpace(s[0]) && !IsWhiteSpace(s[|s| - 1]))
    ensures Trim(s) == s
  {
  }

  /** Trim is idempotent. */
  lemma TrimIdempotent(s: string)
    ensures Trim(Trim(s)) == Trim(s)
  {
    TrimNoop(Trim(s));
  }

  // ---------------------------------------------------------------------------
  // Split and Join on one character

  function IndexOfChar(s: string, c: char): (i: nat)
    requires c in s
    ensures i < |s| && s[i] == c && c !in s[..i]
  {
    if s[0] == c then 0
    else
      var j := IndexOfChar(s[1..], c);
      assert s[..1 + j] == [s[0]] + s[1..][..j];
      1 + j
  }

  lemma {:induction false} IndexOfCharIs(s: string, c: char, i: nat)
    requires i < |s| && s[i] == c && c !in s[..i]
    ensures c in s && IndexOfChar(s, c) == i
  {
    if i > 0 {
      assert s[..i][0] == s[0];
      assert s[1..][..i - 1] == s[1..i];
      assert s[1..][i - 1] == c;
      IndexOfCharIs(s[1..], c, i - 1);
    }
  }

  /** String.Split(c): the pieces between occurrences of c, empty pieces kept. */
  function Split(s: string, c: char): (parts: seq<string>)
    ensures |parts| >= 1
    ensures c in s <==> |parts| >= 2
    ensures forall i :: 0 <= i < |parts| ==> c !in parts[i]
    decreases |s|
  {
    if c !in s then [s]
    else
      var i := IndexOfChar(s, c);
      [s[..i]] + Split(s[i + 1..], c)
  }

  /** String.Join(sep, parts). */
  function Join(parts: seq<string>, sep: string): (r: string)
    ensures |parts| == 1 ==> r == parts[0]
  {
    if |parts| == 0 then ""
    else if |parts| == 1 then parts[0]
    else parts[0] + sep + Join(parts[1..], sep)
  }

  lemma JoinAppend(parts: seq<string>, last: string, sep: string)
    requires |parts| >= 1
    ensures Join(parts + [last], sep) == Join(parts, sep) + sep + last
  {
    if |parts| == 1 {
      assert (parts + [last])[1..] == [last];
    } else {
      assert (parts + [last])[1..] == parts[1..] + [last];
      JoinAppend(parts[1..], last, sep);
    }
  }

  lemma JoinConcat(a: seq<string>, b: seq<string>, sep: string)
    requires |a| >= 1 && |b| >= 1
    ensures Join(a + b, sep) == Join(a, sep) + sep + Join(b, sep)
    decreases |a|
  {
    if |a| == 1 {
      assert (a + b)[1..] == b;
    } else {
      assert (a + b)[1..] == a[1..] + b;
      JoinConcat(a[1..], b, sep);
    }
  }

  lemma JoinNoChar(parts: seq<string>, sep: string, c: char)
    requires c !in sep
    requires forall i :: 0 <= i < |parts| ==> c !in parts[i]
    ensures c !in Join(parts, sep)
  {
    if |parts| > 1 {
      JoinNoChar(parts[1..], sep, c);
    }
  }

  /** Splitting a joined text gives the pieces back when no piece holds the separator. */
  lemma {:induction false} SplitJoin(parts: seq<string>, c: char)
    requires |parts| >= 1
    requires forall i :: 0 <= i < |parts| ==> c !in parts[i]
    ensures Split(Join(parts, [c]), c) == parts
  {
    if |parts| > 1 {
      var rest := Join(parts[1..], [c]);
      assert Join(parts, [c]) == parts[0] + [c] + rest;
      SplitCons(parts[0], c, rest);
      SplitJoin(parts[1..], c);
    }
  }

  /** The first piece of p + c + rest is p, when p does not hold c. */
  lemma SplitCons(p: string, c: char, rest: string)
    requires c !in p
    ensures Split(p + [c] + rest, c) == [p] + Split(rest, c)
  {
    var s := p + [c] + rest;
    assert s[..|p|] == p && s[|p|] == c;
    IndexOfCharIs(s, c, |p|);
    assert s[|p| + 1..] == rest;
  }

  // ---------------------------------------------------------------------------
  // The line split of the log loaders:
  // Split(new[] { "\r\n", "\n" }, StringSplitOptions.RemoveEmptyEntries)

  function SplitLinesRaw(s: string): (lines: seq<string>)
    decreases |s|
  {
    if '\n' !in s then [s]
    else
      var i := IndexOfChar(s, '\n');
      var line := if i > 0 && s[i - 1] == '\r' then s[..i - 1] else s[..i];
      [line] + SplitLinesRaw(s[i + 1..])
  }

  function RemoveEmpty(parts: seq<string>): (r: seq<string>)
    ensures forall i :: 0 <= i < |r| ==> r[i] != ""
    ensures forall x :: x in r ==> x in parts
  {
    if |parts| == 0 then []
    else if parts[0] == "" then RemoveEmpty(parts[1..])
    else [parts[0]] + RemoveEmpty(parts[1..])
  }

  function SplitLines(s: string): (lines: seq<string>)
    ensures forall i :: 0 <= i < |lines| ==> lines[i] != ""
  {
    RemoveEmpty(SplitLinesRaw(s))
  }

  predicate IsLineText(l: string) {
    '\n' !in l && '\r' !in l
  }

  /** Lines joined with "\n" split back into the same lines. */
  lemma {:induction false} SplitLinesJoin(lines: seq<string>)
    requires forall i :: 0 <= i < |lines| ==> lines[i] != "" && IsLineText(lines[i])
    ensures SplitLines(Join(lines, "\n")) == lines
  {
    if |lines| == 0 {
      assert SplitLinesRaw("") == [""];
    } else if |lines| == 1 {
      assert SplitLinesRaw(lines[0]) == [lines[0]];
      assert RemoveEmpty([lines[0]]) == [lines[0]] + RemoveEmpty([]);
    } else {
      var s := Join(lines, "\n");
      var p := lines[0];
      assert s == p + "\n" + Join(lines[1..], "\n");
      assert s[..|p|] == p;
      IndexOfCharIs(s, '\n', |p|);
      assert s[|p| - 1] == p[|p| - 1];
      assert s[|p| + 1..] == Join(lines[1..], "\n");
      assert SplitLinesRaw(s) == [p] + SplitLinesRaw(Join(lines[1..], "\n"));
      SplitLinesJoin(lines[1..]);
    }
  }

  /** Joining longer pieces gives a longer text. */
  lemma {:induction false} JoinLonger(a: seq<string>, b: seq<string>, sep: string)
    requires |a| == |b| && forall i :: 0 <= i < |a| ==> |a[i]| <= |b[i]|
    ensures |Join(a, sep)| <= |Join(b, sep)|
  {
    if |a| > 1 {
      JoinLonger(a[1..], b[1..], sep);
    }
  }

  /** Line texts joined with "\n" split back into the same texts, empty ones included, before RemoveEmptyEntries. */
  lemma {:induction false} SplitLinesRawJoin(lines: seq<string>)
    requires |lines| >= 1 && forall i :: 0 <= i < |lines| ==> IsLineText(lines[i])
    ensures SplitLinesRaw(Join(lines, "\n")) == lines
  {
    if |lines| == 1 {
      assert SplitLinesRaw(lines[0]) == [lines[0]];
    } else {
      var s := Join(lines, "\n");
      var p := lines[0];
      assert s == p + "\n" + Join(lines[1..], "\n");
      assert s[..|p|] == p;
      IndexOfCharIs(s, '\n', |p|);
      if |p| > 0 {
        assert s[|p| - 1] == p[|p| - 1];
      }
      assert s[|p| + 1..] == Join(lines[1..], "\n");
      SplitLinesRawJoin(lines[1..]);
    }
  }

  /** A prefix of a line text is a line text. */
  lemma LinePrefix(l: string, n: nat)
    requires IsLineText(l) && n <= |l|
    ensures IsLineText(l[..n])
  {
    assert forall k :: 0 <= k < n ==> l[..n][k] == l[k];
  }

  lemma JoinCons(a: string, rest: seq<string>, sep: string)
    requires |rest| >= 1
    ensures Join([a] + rest, sep) == a + sep + Join(rest, sep)
  {
    assert ([a] + rest)[1..] == rest;
  }

  /**
   * The first n characters of pieces joined on c are the first m pieces and
   * the first q characters of the next one, joined the same way.
   */
  lemma {:induction false} JoinPrefix(parts: seq<string>, c: char, n: nat) returns (m: nat, q: nat)
    requires |parts| >= 1 && n <= |Join(parts, [c])|
    ensures m < |parts| && q <= |parts[m]|
    ensures Join(parts, [c])[..n] == Join(parts[..m] + [parts[m][..q]], [c])
  {
    var s := Join(parts, [c]);
    if |parts| == 1 || n <= |parts[0]| {
      m, q := 0, n;
      if |parts| > 1 {
        assert s == parts[0] + [c] + Join(parts[1..], [c]);
        assert s[..n] == parts[0][..n];
      }
      assert parts[..0] + [parts[0][..n]] == [parts[0][..n]];
    } else {
      var rest := Join(parts[1..], [c]);
      assert s == parts[0] + [c] + rest;
      var m1, q1 := JoinPrefix(parts[1..], c, n - |parts[0]| - 1);
      m, q := m1 + 1, q1;
      assert s[..n] == parts[0] + [c] + rest[..n - |parts[0]| - 1];
      var tail := parts[1..][..m1] + [parts[1..][m1][..q1]];
      assert parts[..m] + [parts[m][..q]] == [parts[0]] + tail;
      JoinCons(parts[0], tail, [c]);
    }
  }

  // ---------------------------------------------------------------------------
  // Occurrences of a separator string; Contains; Split on a string

  predicate OccursAt(s: string, sub: string, k: int) {
    0 <= k && k + |sub| <= |s| && s[k..k + |sub|] == sub
  }

  /** The first occurrence of sub in s at or after position i. */
  function FindFrom(s: string, sub: string, i: nat): (r: Option<nat>)
    ensures r.Some? ==> i <= r.value && OccursAt(s, sub, r.value)
    ensures r.Some? ==> forall k :: i <= k < r.value ==> !OccursAt(s, sub, k)
    ensures r.None? ==> forall k :: i <= k ==> !OccursAt(s, sub, k)
    decreases |s| - i
  {
    if i + |sub| > |s| then None
    else if s[i..i + |sub|] == sub then Some(i)
    else FindFrom(s, sub, i + 1)
  }

  /** String.Contains(sub). */
  predicate Contains(s: string, sub: string) {
    FindFrom(s, sub, 0).Some?
  }

  lemma ContainsIff(s: string, sub: string)
    ensures Contains(s, sub) <==> exists k :: OccursAt(s, sub, k)
  {
    var r := FindFrom(s, sub, 0);
    if r.Some? {
      assert OccursAt(s, sub, r.value);
    }
  }

  lemma {:induction false} FindFromIs(s: string, sub: string, i: nat, j: nat)
    requires i <= j && OccursAt(s, sub, j)
    requires forall k :: i <= k < j ==> !OccursAt(s, sub, k)
    ensures FindFrom(s, sub, i) == Some(j)
    decreases j - i
  {
    if i < j {
      assert !OccursAt(s, sub, i);
      FindFromIs(s, sub, i + 1, j);
    }
  }

  /** String.Split(new[] { sep }, StringSplitOptions.None). */
  function SplitOn(s: string, sep: string): (parts: seq<string>)
    requires |sep| > 0
    ensures |parts| >= 1
    decreases |s|
  {
    match FindFrom(s, sep, 0)
    case None => [s]
    case Some(i) => [s[..i]] + SplitOn(s[i + |sep|..], sep)
  }

  /** The multi-choice separator of list items. */
  const ChoiceSeparator: string := ";#"

  lemma FirstSeparatorAfterPiece(p: string, rest: string)
    requires !Contains(p, ChoiceSeparator)
    ensures FindFrom(p + ChoiceSeparator + rest, ChoiceSeparator, 0) == Some(|p|)
  {
    var s := p + ChoiceSeparator + rest;
    ContainsIff(p, ChoiceSeparator);
    forall k | 0 <= k < |p| ensures !OccursAt(s, ChoiceSeparator, k) {
      if k + 2 <= |p| {
        assert s[k..k + 2] == p[k..k + 2];
        assert !OccursAt(p, ChoiceSeparator, k);
      } else {
        assert s[k + 1] == ';';
        assert s[k..k + 2][1] == ';';
      }
    }
    assert s[|p|..|p| + 2] == ChoiceSeparator;
    FindFromIs(s, ChoiceSeparator, 0, |p|);
  }

  /** Splitting on ";#" undoes joining with ";#" when no piece holds ";#". */
  lemma {:induction false} SplitOnJoin(parts: seq<string>)
    requires |parts| >= 1
    requires forall i :: 0 <= i < |parts| ==> !Contains(parts[i], ChoiceSeparator)
    ensures SplitOn(Join(parts, ChoiceSeparator), ChoiceSeparator) == parts
  {
    var s := Join(parts, ChoiceSeparator);
    if |parts| == 1 {
      ContainsIff(parts[0], ChoiceSeparator);
      assert FindFrom(s, ChoiceSeparator, 0).None?;
    } else {
      var rest := Join(parts[1..], ChoiceSeparator);
      assert s == parts[0] + ChoiceSeparator + rest;
      FirstSeparatorAfterPiece(parts[0], rest);
      assert s[..|parts[0]|] == parts[0];
      assert s[|parts[0]| + 2..] == rest;
      SplitOnJoin(parts[1..]);
    }
  }

  lemma RemoveEmptyNoop(parts: seq<string>)
    requires forall i :: 0 <= i < |parts| ==> parts[i] != ""
    ensures RemoveEmpty(parts) == parts
  {
    if |parts| > 0 {
      RemoveEmptyNoop(parts[1..]);
    }
  }
}
