/**
 * The string operations the handlers rely on: JavaScript's startsWith,
 * endsWith, toLowerCase, trim, split(' ')[1] and an unanchored regular
 * expression alternative (a substring test).
 */
module Text {
  import opened Wrappers

  predicate StartsWith(s: string, prefix: string) {
    |prefix| <= |s| && s[..|prefix|] == prefix
  }

  predicate EndsWith(s: string, suffix: string) {
    |suffix| <= |s| && s[|s| - |suffix|..] == suffix
  }

  /** `part` occurs somewhere in `s` (an unanchored match). */
  predicate Contains(s: string, part: string)
    decreases |s|
  {
    StartsWith(s, part) || (|s| > 0 && Contains(s[1..], part))
  }

  /** Case mapping of the ASCII letters; other characters are kept. */
  function LowerChar(c: char): char {
    if 'A' <= c <= 'Z' then (c as int + 32) as char else c
  }

  function Lower(s: string): (r: string)
    ensures |r| == |s|
    ensures forall i :: 0 <= i < |s| ==> r[i] == LowerChar(s[i])
  {
    if s == [] then [] else [LowerChar(s[0])] + Lower(s[1..])
  }

  /** The characters String.prototype.trim removes. */
  predicate IsSpace(c: char) {
    || c == ' ' || c == '\t' || c == '\n' || c == '\r'
    || c == '\U{000B}' || c == '\U{000C}' || c == '\U{00A0}' || c == '\U{1680}'
    || ('\U{2000}' <= c <= '\U{200A}')
    || c == '\U{2028}' || c == '\U{2029}' || c == '\U{202F}' || c == '\U{205F}'
    || c == '\U{3000}' || c == '\U{FEFF}'
  }

  function TrimStart(s: string): (r: string)
    ensures |r| <= |s| && r == s[|s| - |r|..]
    ensures forall i :: 0 <= i < |s| - |r| ==> IsSpace(s[i])
    ensures r == [] || !IsSpace(r[0])
  {
    if s != [] && IsSpace(s[0]) then TrimStart(s[1..]) else s
  }

  function TrimEnd(s: string): (r: string)
    ensures |r| <= |s| && r == s[..|r|]
    ensures forall i :: |r| <= i < |s| ==> IsSpace(s[i])
    ensures r == [] || !IsSpace(r[|r| - 1])
  {
    if s != [] && IsSpace(s[|s| - 1]) then TrimEnd(s[..|s| - 1]) else s
  }

  function Trim(s: string): string {
    TrimEnd(TrimStart(s))
  }

  /** A trimmed string has nothing left to trim. */
  lemma TrimIdempotent(s: string)
    ensures Trim(Trim(s)) == Trim(s)
  {
    var u := TrimStart(s);
    var t := TrimEnd(u);
    if t != [] {
      assert t[0] == u[0];
      assert TrimStart(t) == t;
    }
  }

  /** Trimming keeps a suffix that neither starts nor ends with a space. */
  lemma TrimKeepsSuffix(s: string, suffix: string)
    requires EndsWith(s, suffix) && suffix != []
    requires !IsSpace(suffix[0]) && !IsSpace(suffix[|suffix| - 1])
    ensures EndsWith(Trim(s), suffix)
  {
    var u := TrimStart(s);
    assert s[|s| - |suffix|] == suffix[0];
    assert u[|u| - |suffix|..] == suffix;
    assert u[|u| - 1] == suffix[|suffix| - 1];
    assert TrimEnd(u) == u;
  }

  /** Lower-casing works character by character. */
  lemma LowerConcat(a: string, b: string)
    ensures Lower(a + b) == Lower(a) + Lower(b)
  {
    assert forall i :: 0 <= i < |a + b| ==> Lower(a + b)[i] == (Lower(a) + Lower(b))[i];
  }

  /** A string without upper-case ASCII letters is its own lower case. */
  lemma LowerOfLowerCase(s: string)
    requires forall i :: 0 <= i < |s| ==> !('A' <= s[i] <= 'Z')
    ensures Lower(s) == s
  {
  }

  /** Lower-casing keeps a suffix that is already lower case. */
  lemma LowerKeepsSuffix(s: string, suffix: string)
    requires EndsWith(s, suffix) && Lower(suffix) == suffix
    ensures EndsWith(Lower(s), suffix)
  {
    var l := Lower(s);
    var n := |s| - |suffix|;
    forall i | 0 <= i < |suffix|
      ensures l[n..][i] == suffix[i]
    {
      assert s[n + i] == suffix[i];
      assert Lower(suffix)[i] == LowerChar(suffix[i]);
    }
  }

  function IndexOfChar(s: string, c: char): (r: Option<nat>)
    ensures r.None? <==> c !in s
    ensures r.Some? ==> r.value < |s| && s[r.value] == c && c !in s[..r.value]
  {
    if s == [] then None
    else if s[0] == c then Some(0)
    else match IndexOfChar(s[1..], c)
      case None => None
      case Some(i) =>
        assert s[..i + 1] == [s[0]] + s[1..][..i];
        Some(i + 1)
  }

  function LastIndexOfChar(s: string, c: char): (r: Option<nat>)
    ensures r.None? <==> c !in s
    ensures r.Some? ==> r.value < |s| && s[r.value] == c && c !in s[r.value + 1..]
  {
    if s == [] then None
    else if s[|s| - 1] == c then Some(|s| - 1)
    else
      assert s[..|s| - 1] + [s[|s| - 1]] == s;
      LastIndexOfChar(s[..|s| - 1], c)
  }

  /**
   * `s.split(sep)[1]`: the text between the first and the second `sep`
   * (or the end); None (undefined) when `s` holds no `sep`.
   */
  function SecondPiece(s: string, sep: char): (r: Option<string>)
    ensures r.Some? <==> sep in s
    ensures r.Some? ==> sep !in r.value
  {
    match IndexOfChar(s, sep)
    case None => None
    case Some(i) =>
      var rest := s[i + 1..];
      match IndexOfChar(rest, sep)
      case None => Some(rest)
      case Some(j) => Some(rest[..j])
  }

  /** Splitting "a b" on the space gives back `b` when neither part holds a space. */
  lemma SecondPieceOfJoin(a: string, b: string)
    requires ' ' !in a && ' ' !in b
    ensures SecondPiece(a + " " + b, ' ') == Some(b)
  {
    var s := a + " " + b;
    assert s[|a|] == ' ';
    assert s[..|a|] == a;
    assert IndexOfChar(s, ' ') == Some(|a|);
    assert s[|a| + 1..] == b;
  }

  /** A match found in `s` is still found once text is appended. */
  lemma {:induction false} ContainsAppend(s: string, post: string, part: string)
    requires Contains(s, part)
    ensures Contains(s + post, part)
    decreases |s|
  {
    if StartsWith(s, part) {
      assert (s + post)[..|part|] == s[..|part|];
    } else {
      assert (s + post)[1..] == s[1..] + post;
      ContainsAppend(s[1..], post, part);
    }
  }

  /** A match found in `s` is still found once text is prepended. */
  lemma {:induction false} ContainsPrepend(pre: string, s: string, part: string)
    requires Contains(s, part)
    ensures Contains(pre + s, part)
    decreases |pre|
  {
    if pre != [] {
      assert (pre + s)[1..] == pre[1..] + s;
      ContainsPrepend(pre[1..], s, part);
    } else {
      assert pre + s == s;
    }
  }
}
