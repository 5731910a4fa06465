/** The Python string operations the normaliser relies on, written out:
    `sub in s`, `s.replace(pat, "")`, `s.strip()` and `s[b:e]`. */
module Text {

  predicate IsPrefix(sub: string, s: string) {
    |sub| <= |s| && s[..|sub|] == sub
  }

  /** `sub in s`; the empty string occurs in every string. */
  predicate Contains(s: string, sub: string)
    decreases |s|
  {
    IsPrefix(sub, s) || (s != [] && Contains(s[1..], sub))
  }

  /** `sub` occurs in `s` starting at index i. */
  predicate OccursAt(s: string, sub: string, i: int) {
    0 <= i <= |s| - |sub| && s[i..i + |sub|] == sub
  }

  /** Contains agrees with "some slice of s equals sub". */
  lemma {:induction false} ContainsIffOccurs(s: string, sub: string)
    ensures Contains(s, sub) <==> exists i :: OccursAt(s, sub, i)
    decreases |s|
  {
    if IsPrefix(sub, s) {
      assert OccursAt(s, sub, 0);
    } else if s == [] {
    } else {
      ContainsIffOccurs(s[1..], sub);
      if Contains(s[1..], sub) {
        var i :| OccursAt(s[1..], sub, i);
        assert s[i + 1..i + 1 + |sub|] == s[1..][i..i + |sub|];
        assert OccursAt(s, sub, i + 1);
      }
      if exists i :: OccursAt(s, sub, i) {
        var i :| OccursAt(s, sub, i);
        assert i != 0;
        assert s[1..][i - 1..i - 1 + |sub|] == s[i..i + |sub|];
        assert OccursAt(s[1..], sub, i - 1);
      }
    }
  }

  /** `s.replace(pat, "")`: scan left to right, deleting each
      non-overlapping occurrence of `pat`; an empty `pat` changes nothing. */
  function RemoveAll(s: string, pat: string): (r: string)
    ensures |r| <= |s|
    decreases |s|
  {
    if pat == [] then s
    else if IsPrefix(pat, s) then RemoveAll(s[|pat|..], pat)
    else if s == [] then []
    else [s[0]] + RemoveAll(s[1..], pat)
  }

  /** A text in which the pattern does not occur is left as it is. */
  lemma {:induction false} RemoveAllAbsent(s: string, pat: string)
    requires !Contains(s, pat)
    ensures RemoveAll(s, pat) == s
    decreases |s|
  {
    if pat != [] && s != [] {
      RemoveAllAbsent(s[1..], pat);
    }
  }

  /** A text in which a non-empty pattern occurs loses at least that many characters. */
  lemma {:induction false} RemoveAllShrinks(s: string, pat: string)
    requires pat != [] && Contains(s, pat)
    ensures |RemoveAll(s, pat)| <= |s| - |pat|
    decreases |s|
  {
    if !IsPrefix(pat, s) {
      RemoveAllShrinks(s[1..], pat);
    }
  }

  /** Deletion is a single pass: it can join two pieces into a new occurrence. */
  lemma RemoveAllIsSinglePass()
    ensures RemoveAll("aabb", "ab") == "ab"
    ensures Contains(RemoveAll("aabb", "ab"), "ab")
  {
    assert "aabb"[..2] == "aa";
    assert !IsPrefix("ab", "aabb");
    assert "aabb"[1..] == "abb";
    assert IsPrefix("ab", "abb");
    assert "abb"[2..] == "b";
    assert !IsPrefix("ab", "b");
    assert "b"[1..] == "";
    assert RemoveAll("b", "ab") == "b";
    assert IsPrefix("ab", "ab");
  }

  /** Successive `replace(sub, "")` for each `sub` in order. */
  function RemoveEach(s: string, subs: seq<string>): (r: string)
    ensures |r| <= |s|
    decreases subs
  {
    if subs == [] then s else RemoveEach(RemoveAll(s, subs[0]), subs[1..])
  }

  /** `str.isspace` for one character: the ASCII and Unicode white space
      Python strips, including the ideographic space U+3000. */
  predicate IsSpace(c: char) {
    c == ' ' || ('\t' <= c <= '\r') || ('\U{1C}' <= c <= '\U{1F}')
    || c == '\U{85}' || c == '\U{A0}' || c == '\U{1680}'
    || ('\U{2000}' <= c <= '\U{200A}') || c == '\U{2028}' || c == '\U{2029}'
    || c == '\U{202F}' || c == '\U{205F}' || c == '\U{3000}'
  }

  function TrimStart(s: string): (r: string)
    ensures |r| <= |s| && r == s[|s| - |r|..]
    ensures forall k :: 0 <= k < |s| - |r| ==> IsSpace(s[k])
    ensures r == [] || !IsSpace(r[0])
  {
    if s != [] && IsSpace(s[0]) then TrimStart(s[1..]) else s
  }

  function TrimEnd(s: string): (r: string)
    ensures |r| <= |s| && r == s[..|r|]
    ensures forall k :: |r| <= k < |s| ==> IsSpace(s[k])
    ensures r == [] || !IsSpace(r[|r| - 1])
  {
    if s != [] && IsSpace(s[|s| - 1]) then TrimEnd(s[..|s| - 1]) else s
  }

  /** `s.strip()`. */
  function Strip(s: string): string {
    TrimEnd(TrimStart(s))
  }

  /** Strip removes white space at both ends and nothing else. */
  lemma StripShape(s: string)
    ensures var r := Strip(s);
      (r == [] || (!IsSpace(r[0]) && !IsSpace(r[|r| - 1])))
      && (exists i :: OccursAt(s, r, i)
            && (forall k :: 0 <= k < i ==> IsSpace(s[k]))
            && (forall k :: i + |r| <= k < |s| ==> IsSpace(s[k])))
  {
    StripEnds(s);
    StripSlice(s);
  }

  /** Neither end of a stripped text is white space. */
  lemma StripEnds(s: string)
    ensures var r := Strip(s);
      r == [] || (!IsSpace(r[0]) && !IsSpace(r[|r| - 1]))
  {
    var t := TrimStart(s);
    var r := TrimEnd(t);
    if r != [] {
      assert r[0] == t[0];
    }
  }

  /** A stripped text sits in the original with only white space around it. */
  lemma StripSlice(s: string)
    ensures var r := Strip(s); var i := |s| - |TrimStart(s)|;
      OccursAt(s, r, i)
      && (forall k :: 0 <= k < i ==> IsSpace(s[k]))
      && (forall k :: i + |r| <= k < |s| ==> IsSpace(s[k]))
  {
    var t := TrimStart(s);
    InnerSlice(s, t, TrimEnd(t), |s| - |t|);
  }

  /** A prefix `r` of a suffix `t` of `s`, followed in `t` by white space
      only, occurs in `s` where `t` starts, with only white space after it. */
  lemma InnerSlice(s: string, t: string, r: string, i: nat)
    requires i <= |s| && t == s[i..]
    requires |r| <= |t| && r == t[..|r|]
    requires forall k :: |r| <= k < |t| ==> IsSpace(t[k])
    ensures OccursAt(s, r, i)
    ensures forall k :: i + |r| <= k < |s| ==> IsSpace(s[k])
  {
    assert s[i..i + |r|] == r;
    forall k | i + |r| <= k < |s| ensures IsSpace(s[k]) {
      assert s[k] == t[k - i];
    }
  }

  /** Python's bound normalisation for a slice index over a sequence of length n. */
  function SliceBound(i: int, n: nat): (r: nat)
    ensures r <= n
    ensures 0 <= i <= n ==> r == i
  {
    if i < 0 then (if i + n < 0 then 0 else i + n) else if i > n then n else i
  }

  /** `s[b:e]` with Python's negative indices and clamping. */
  function Slice(s: string, b: int, e: int): (r: string)
    ensures |r| <= |s|
    ensures 0 <= b <= e <= |s| ==> r == s[b..e]
    ensures 0 <= e <= b ==> r == []
  {
    var lo := SliceBound(b, |s|);
    var hi := SliceBound(e, |s|);
    if lo < hi then s[lo..hi] else []
  }

  /** Out-of-range slice bounds: a negative one counts from the end, one
      before the start acts as 0, one past the end acts as the length. */
  lemma SliceBounds(s: string, b: int, e: int)
    ensures -|s| <= b < 0 ==> Slice(s, b, e) == Slice(s, b + |s|, e)
    ensures -|s| <= e < 0 ==> Slice(s, b, e) == Slice(s, b, e + |s|)
    ensures b < -|s| ==> Slice(s, b, e) == Slice(s, 0, e)
    ensures e < -|s| ==> Slice(s, b, e) == []
    ensures |s| < b ==> Slice(s, b, e) == []
    ensures |s| < e ==> Slice(s, b, e) == Slice(s, b, |s|)
  {
  }
}
