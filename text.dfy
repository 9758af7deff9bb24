/** The Python string operations the core relies on: `strip`, `upper`, the
    `in` substring test, `split('\n')` and `replace`.  Strings are sequences of
    Unicode scalar values, as Python's `str` is a sequence of code points. */
module Text {

  /** Python's `str.isspace()` for one character: the ASCII controls
      tab to carriage return, the separators 0x1C to 0x1F, the space, and the
      Unicode space characters. */
  predicate IsSpace(c: char) {
    || ('\t' <= c <= '\r') || ('\U{1C}' <= c <= '\U{1F}') || c == ' '
    || c == '\U{85}' || c == '\U{A0}' || c == '\U{1680}'
    || ('\U{2000}' <= c <= '\U{200A}') || c == '\U{2028}' || c == '\U{2029}'
    || c == '\U{202F}' || c == '\U{205F}' || c == '\U{3000}'
  }

  predicate AllSpace(s: string) {
    forall i :: 0 <= i < |s| ==> IsSpace(s[i])
  }

  /** `s.lstrip()`: drops the leading whitespace. */
  function StripLeft(s: string): (r: string)
    ensures |r| <= |s| && r == s[|s| - |r|..]
    ensures AllSpace(s[..|s| - |r|])
    ensures r == [] || !IsSpace(r[0])
    decreases |s|
  {
    if s != [] && IsSpace(s[0]) then
      var r := StripLeft(s[1..]);
      assert s[..|s| - |r|] == [s[0]] + s[1..][..|s| - 1 - |r|];
      r
    else s
  }

  /** `s.rstrip()`: drops the trailing whitespace. */
  function StripRight(s: string): (r: string)
    ensures |r| <= |s| && r == s[..|r|]
    ensures AllSpace(s[|r|..])
    ensures r == [] || !IsSpace(r[|r| - 1])
    decreases |s|
  {
    if s != [] && IsSpace(s[|s| - 1]) then
      var t := s[..|s| - 1];
      var r := StripRight(t);
      assert s[|r|..] == t[|r|..] + [s[|s| - 1]];
      r
    else s
  }

  /** `s.strip()`: what is left between the leading and trailing whitespace. */
  function Strip(s: string): (r: string)
    ensures r == [] || (!IsSpace(r[0]) && !IsSpace(r[|r| - 1]))
    ensures |r| <= |s|
  {
    StripRight(StripLeft(s))
  }

  /** `s.strip()` is empty exactly when `s` is all whitespace. */
  lemma StripEmptyIffAllSpace(s: string)
    ensures Strip(s) == [] <==> AllSpace(s)
  {
    var l := StripLeft(s);
    var a := |s| - |l|;
    assert l != [] ==> l[0] == s[a];
    if Strip(s) == [] {
      assert AllSpace(l[0..]);
      assert l == [];
      forall i | 0 <= i < |s| ensures IsSpace(s[i]) {
        assert s[..a][i] == s[i];
      }
    }
  }

  /** Stripping twice is stripping once. */
  lemma {:induction false} StripIdempotent(s: string)
    ensures Strip(Strip(s)) == Strip(s)
  {
    var r := Strip(s);
    assert r == [] || !IsSpace(r[0]);
    assert StripLeft(r) == r;
    assert r == [] || !IsSpace(r[|r| - 1]);
    assert StripRight(r) == r;
  }

  /** Stripping keeps every character that is not whitespace. */
  lemma StripKeepsVisible(s: string, c: char)
    requires !IsSpace(c)
    ensures c in Strip(s) <==> c in s
  {
    var l := StripLeft(s);
    var r := StripRight(l);
    if c in s {
      InStripLeft(s, c);
      InStripRight(l, c);
    }
    if c in r {
      FromStripRight(l, c);
      FromStripLeft(s, c);
    }
  }

  lemma FromStripLeft(s: string, c: char)
    requires c in StripLeft(s)
    ensures c in s
  {
    var l := StripLeft(s);
    var j :| 0 <= j < |l| && l[j] == c;
    assert s[|s| - |l| + j] == c;
  }

  lemma FromStripRight(s: string, c: char)
    requires c in StripRight(s)
    ensures c in s
  {
    var r := StripRight(s);
    var j :| 0 <= j < |r| && r[j] == c;
    assert s[j] == c;
  }

  lemma InStripLeft(s: string, c: char)
    requires !IsSpace(c) && c in s
    ensures c in StripLeft(s)
  {
    var l := StripLeft(s);
    var a := |s| - |l|;
    var i :| 0 <= i < |s| && s[i] == c;
    forall k | 0 <= k < a ensures s[k] != c {
      assert s[..a][k] == s[k];
    }
    assert l[i - a] == c;
  }

  lemma InStripRight(s: string, c: char)
    requires !IsSpace(c) && c in s
    ensures c in StripRight(s)
  {
    var r := StripRight(s);
    var i :| 0 <= i < |s| && s[i] == c;
    forall k | |r| <= k < |s| ensures s[k] != c {
      assert s[|r|..][k - |r|] == s[k];
    }
    assert r[i] == c;
  }

  /** Python's `str.upper()` restricted to ASCII: `a`..`z` become `A`..`Z`. */
  function UpperChar(c: char): (u: char)
    ensures 'a' <= c <= 'z' ==> 'A' <= u <= 'Z'
    ensures !('a' <= c <= 'z') ==> u == c
  {
    if 'a' <= c <= 'z' then (c as int - 32) as char else c
  }

  function Upper(s: string): (r: string)
    ensures |r| == |s|
    ensures forall i :: 0 <= i < |s| ==> r[i] == UpperChar(s[i])
  {
    seq(|s|, i requires 0 <= i < |s| => UpperChar(s[i]))
  }

  /** Upper-casing twice is upper-casing once. */
  lemma UpperIdempotent(s: string)
    ensures Upper(Upper(s)) == Upper(s)
  {
    forall i | 0 <= i < |s| ensures Upper(Upper(s))[i] == Upper(s)[i] {
      assert UpperChar(UpperChar(s[i])) == UpperChar(s[i]);
    }
  }

  predicate StartsWith(s: string, p: string) {
    |p| <= |s| && s[..|p|] == p
  }

  /** Python's `p in s`. */
  predicate Contains(s: string, p: string)
    decreases |s|
  {
    StartsWith(s, p) || (s != [] && Contains(s[1..], p))
  }

  /** Every character of a contained string occurs in the container; used to
      show that a pattern is absent. */
  lemma {:induction false} ContainsHasChars(s: string, p: string, k: nat)
    requires Contains(s, p) && k < |p|
    ensures p[k] in s
    decreases |s|
  {
    if StartsWith(s, p) {
      assert s[..|p|][k] == s[k];
    } else {
      ContainsHasChars(s[1..], p, k);
    }
  }

  /** A string that occurs at position `k` is contained. */
  lemma {:induction false} ContainsAt(s: string, p: string, k: nat)
    requires k + |p| <= |s|
    requires forall j :: 0 <= j < |p| ==> s[k + j] == p[j]
    ensures Contains(s, p)
    decreases k
  {
    if k == 0 {
      assert s[..|p|] == p;
    } else {
      ContainsAt(s[1..], p, k - 1);
    }
  }

  /** Text without lower-case letters is its own upper case. */
  lemma UpperKeepsCapitals(s: string)
    requires forall i :: 0 <= i < |s| ==> !('a' <= s[i] <= 'z')
    ensures Upper(s) == s
  {
  }

  /** Index of the first `c` in `s`. */
  function FirstIndex(s: string, c: char): (i: nat)
    requires c in s
    ensures i < |s| && s[i] == c && c !in s[..i]
  {
    if s[0] == c then 0 else 1 + FirstIndex(s[1..], c)
  }

  /** Python's `s.split('\n')`: the pieces between newlines, at least one. */
  function SplitLines(s: string): (r: seq<string>)
    ensures |r| >= 1
    ensures forall i :: 0 <= i < |r| ==> '\n' !in r[i]
    decreases |s|
  {
    if '\n' in s then
      var i := FirstIndex(s, '\n');
      [s[..i]] + SplitLines(s[i + 1..])
    else [s]
  }

  /** `'\n'.join(lines)`. */
  function JoinLines(lines: seq<string>): string
    requires |lines| >= 1
  {
    if |lines| == 1 then lines[0] else lines[0] + "\n" + JoinLines(lines[1..])
  }

  /** Splitting at newlines loses nothing: joining the pieces gives the text back. */
  lemma {:induction false} JoinSplitLines(s: string)
    ensures JoinLines(SplitLines(s)) == s
    decreases |s|
  {
    if '\n' in s {
      var i := FirstIndex(s, '\n');
      var rest := SplitLines(s[i + 1..]);
      assert SplitLines(s) == [s[..i]] + rest;
      assert ([s[..i]] + rest)[1..] == rest;
      JoinSplitLines(s[i + 1..]);
      assert s == s[..i] + "\n" + s[i + 1..];
    }
  }

  /** Python's `s.replace(p, "")`: removes the non-overlapping occurrences of
      `p`, scanning from the left. */
  function RemoveAll(s: string, p: string): (r: string)
    requires p != []
    ensures |r| <= |s|
    decreases |s|
  {
    if s == [] then []
    else if StartsWith(s, p) then RemoveAll(s[|p|..], p)
    else [s[0]] + RemoveAll(s[1..], p)
  }

  /** Removing a string that does not occur changes nothing. */
  lemma {:induction false} RemoveAllAbsent(s: string, p: string)
    requires p != [] && !Contains(s, p)
    ensures RemoveAll(s, p) == s
    decreases |s|
  {
    if s != [] {
      RemoveAllAbsent(s[1..], p);
      assert s == [s[0]] + s[1..];
    }
  }

  /** Python's `s.replace(a, b)` for single characters `a` and `b`. */
  function ReplaceChar(s: string, a: char, b: char): (r: string)
    ensures |r| == |s|
    ensures forall i :: 0 <= i < |s| ==> r[i] == (if s[i] == a then b else s[i])
  {
    seq(|s|, i requires 0 <= i < |s| => if s[i] == a then b else s[i])
  }

  /** Python's `s.replace(c, "")` for one character `c`. */
  function DeleteChar(s: string, c: char): (r: string)
    ensures c !in r
    ensures |r| <= |s|
    ensures c !in s ==> r == s
  {
    if s == [] then []
    else (if s[0] == c then [] else [s[0]]) + DeleteChar(s[1..], c)
  }

  /** Deleting a character works piece by piece, so what is kept stays in
      its order. */
  lemma {:induction false} DeleteCharAppend(s: string, t: string, c: char)
    ensures DeleteChar(s + t, c) == DeleteChar(s, c) + DeleteChar(t, c)
    decreases |s|
  {
    if s != [] {
      DeleteCharAppend(s[1..], t, c);
      assert (s + t)[1..] == s[1..] + t;
    } else {
      assert s + t == t;
    }
  }

  lemma ReplaceCharAppend(s: string, t: string, a: char, b: char)
    ensures ReplaceChar(s + t, a, b) == ReplaceChar(s, a, b) + ReplaceChar(t, a, b)
  {
  }

  /** Replacing one character and deleting another can be done in either
      order. */
  lemma {:induction false} ReplaceThenDelete(s: string, a: char, b: char, c: char)
    requires c != a && c != b
    ensures DeleteChar(ReplaceChar(s, a, b), c) == ReplaceChar(DeleteChar(s, c), a, b)
    decreases |s|
  {
    if s != [] {
      var u := ReplaceChar(s, a, b);
      var head := if s[0] == c then [] else [s[0]];
      assert u[1..] == ReplaceChar(s[1..], a, b);
      assert (u[0] == c) == (s[0] == c);
      ReplaceThenDelete(s[1..], a, b, c);
      ReplaceCharAppend(head, DeleteChar(s[1..], c), a, b);
    }
  }

  lemma {:induction false} DeleteCharKeeps(s: string, c: char, d: char)
    requires d != c
    ensures d in DeleteChar(s, c) <==> d in s
  {
    if s != [] {
      DeleteCharKeeps(s[1..], c, d);
      assert s == [s[0]] + s[1..];
    }
  }
}
