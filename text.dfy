/** The Python string operations the client relies on, over `seq<char>`. */
module Text {
  import opened Common

  /** The characters Python's `str.isspace` accepts, i.e. what `str.strip()`
      without arguments removes. */
  predicate IsSpace(c: char) {
    c == ' ' || ('\t' <= c <= '\r') || ('\U{1c}' <= c <= '\U{1f}')
    || c == '\U{85}' || c == '\U{a0}' || c == '\U{1680}'
    || ('\U{2000}' <= c <= '\U{200a}') || c == '\U{2028}' || c == '\U{2029}'
    || c == '\U{202f}' || c == '\U{205f}' || c == '\U{3000}'
  }

  /** Neither the first nor the last character is whitespace. */
  predicate NoEdgeSpace(s: string) {
    |s| == 0 || (!IsSpace(s[0]) && !IsSpace(s[|s| - 1]))
  }

  /** `s.lstrip()`: drop the leading whitespace. */
  function StripLeft(s: string): (r: string)
    ensures |r| <= |s| && r == s[|s| - |r|..]
    ensures r == [] || !IsSpace(r[0])
    ensures forall i :: 0 <= i < |s| - |r| ==> IsSpace(s[i])
  {
    if |s| > 0 && IsSpace(s[0]) then StripLeft(s[1..]) else s
  }

  /** `s.rstrip()`: drop the trailing whitespace. */
  function StripRight(s: string): (r: string)
    ensures |r| <= |s| && r == s[..|r|]
    ensures r == [] || !IsSpace(r[|r| - 1])
    ensures forall i :: |r| <= i < |s| ==> IsSpace(s[i])
  {
    if |s| > 0 && IsSpace(s[|s| - 1]) then StripRight(s[..|s| - 1]) else s
  }

  /** `s.strip()`: the part of `s` between its leading and its trailing run
      of whitespace (`StripIsInnerPart`). */
  function Strip(s: string): (r: string)
    ensures NoEdgeSpace(r)
    ensures NoEdgeSpace(s) ==> r == s
  {
    var l := StripLeft(s);
    var r := StripRight(l);
    assert r == [] || !IsSpace(r[0]) by {
      if r != [] { assert r[0] == l[0]; }
    }
    r
  }

  /** The stripped string is a contiguous part of `s`, and everything cut
      off on either side is whitespace. With `NoEdgeSpace` from `Strip`'s
      contract this determines the result uniquely. */
  lemma StripIsInnerPart(s: string) returns (k: nat)
    ensures k + |Strip(s)| <= |s| && Strip(s) == s[k..k + |Strip(s)|]
    ensures forall i :: 0 <= i < k ==> IsSpace(s[i])
    ensures forall i :: k + |Strip(s)| <= i < |s| ==> IsSpace(s[i])
  {
    var l := StripLeft(s);
    k := |s| - |l|;
    InnerPart(s, k, l, Strip(s));
  }

  /** The step of `StripIsInnerPart` that does not depend on how the two
      halves strip: a prefix of a suffix is a middle part, and the space
      after it in the suffix is space in the whole. */
  lemma InnerPart(s: string, k: nat, l: string, r: string)
    requires k <= |s| && l == s[k..] && |r| <= |l| && r == l[..|r|]
    requires forall i :: |r| <= i < |l| ==> IsSpace(l[i])
    ensures k + |r| <= |s| && r == s[k..k + |r|]
    ensures forall i :: k + |r| <= i < |s| ==> IsSpace(s[i])
  {
    forall i | k + |r| <= i < |s|
      ensures IsSpace(s[i])
    {
      assert s[i] == l[i - k];
    }
  }

  /** Stripping twice is stripping once. */
  lemma StripIdempotent(s: string)
    ensures Strip(Strip(s)) == Strip(s)
  {
  }

  /** ASCII `str.lower()` on one character. */
  function LowerChar(c: char): char {
    if 'A' <= c <= 'Z' then (c as int + 32) as char else c
  }

  /** ASCII `str.upper()` on one character. */
  function UpperChar(c: char): char {
    if 'a' <= c <= 'z' then (c as int - 32) as char else c
  }

  /** `s.lower()`, restricted to ASCII letters. */
  function Lower(s: string): (r: string)
    ensures |r| == |s|
    ensures forall i :: 0 <= i < |s| ==> !('A' <= r[i] <= 'Z')
    ensures forall i :: 0 <= i < |s| ==>
      if 'A' <= s[i] <= 'Z' then r[i] as int == s[i] as int + 32 else r[i] == s[i]
  {
    seq(|s|, i requires 0 <= i < |s| => LowerChar(s[i]))
  }

  /** `s.upper()`, restricted to ASCII letters. */
  function Upper(s: string): (r: string)
    ensures |r| == |s|
    ensures IsUpperCase(r)
    ensures forall i :: 0 <= i < |s| ==>
      if 'a' <= s[i] <= 'z' then r[i] as int == s[i] as int - 32 else r[i] == s[i]
  {
    seq(|s|, i requires 0 <= i < |s| => UpperChar(s[i]))
  }

  /** No lower-case ASCII letter occurs in `s`. */
  predicate IsUpperCase(s: string) {
    forall i :: 0 <= i < |s| ==> !('a' <= s[i] <= 'z')
  }

  /** Lower-casing distributes over concatenation. */
  lemma LowerConcat(a: string, b: string)
    ensures Lower(a + b) == Lower(a) + Lower(b)
  {
    assert forall i :: 0 <= i < |a + b| ==> Lower(a + b)[i] == (Lower(a) + Lower(b))[i];
  }

  /** `s.startswith(p)`. */
  predicate StartsWith(s: string, p: string) {
    |p| <= |s| && s[..|p|] == p
  }

  /** Python's substring test `sub in s`. */
  predicate Contains(s: string, sub: string)
    decreases |s|
  {
    StartsWith(s, sub) || (|s| > 0 && Contains(s[1..], sub))
  }

  /** `sub in s` holds when `sub` occurs at some offset of `s`. */
  lemma {:induction false} ContainsAt(s: string, sub: string, k: nat)
    requires k + |sub| <= |s| && s[k..k + |sub|] == sub
    ensures Contains(s, sub)
    decreases k
  {
    if k > 0 {
      assert s[1..][k - 1..k - 1 + |sub|] == s[k..k + |sub|];
      ContainsAt(s[1..], sub, k - 1);
    }
  }

  /** Conversely, when `sub in s` holds, `sub` occurs at some offset. */
  lemma {:induction false} ContainsOffset(s: string, sub: string) returns (k: nat)
    requires Contains(s, sub)
    ensures k + |sub| <= |s| && s[k..k + |sub|] == sub
    decreases |s|
  {
    if StartsWith(s, sub) {
      k := 0;
    } else {
      var j := ContainsOffset(s[1..], sub);
      assert s[1..][j..j + |sub|] == s[j + 1..j + 1 + |sub|];
      k := j + 1;
    }
  }

  /** The index of the first occurrence of `c` in `s`, as `SplitFirst` uses it. */
  function IndexOf(s: string, c: char): (r: Option<nat>)
    ensures r.None? <==> c !in s
    ensures r.Some? ==> r.value < |s| && s[r.value] == c && c !in s[..r.value]
  {
    First(s, (x: char) => x == c)
  }

  /** `s.split(c, 1)` unpacked into two names: the text before the first `c`
      and the text after it; `None` when the unpacking would raise because
      `c` does not occur. */
  function SplitFirst(s: string, c: char): (r: Option<(string, string)>)
    ensures r.None? <==> c !in s
    ensures r.Some? ==> c !in r.value.0 && r.value.0 + [c] + r.value.1 == s
  {
    match IndexOf(s, c)
    case None => None
    case Some(i) =>
      assert s[..i] + [c] + s[i + 1..] == s;
      Some((s[..i], s[i + 1..]))
  }

  /** Splitting a joined string at the first separator gives back its parts,
      provided the separator does not occur in the left part. */
  lemma SplitFirstOfJoin(a: string, b: string, c: char)
    requires c !in a
    ensures SplitFirst(a + [c] + b, c) == Some((a, b))
  {
    var s := a + [c] + b;
    assert s[|a|] == c;
    assert s[..|a|] == a && s[|a| + 1..] == b;
    assert IndexOf(s, c) == Some(|a|);
  }
}
