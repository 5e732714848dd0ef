/** Text operations used by the icon screen, over ASCII: `toLowerCase()`,
    `String.contains` and `equals(other, ignoreCase = true)`. Characters
    outside 'A'..'Z' are left as they are by the case mapping. */
module AsciiText {

  predicate IsUpper(c: char) {
    'A' <= c <= 'Z'
  }

  /** The lower-case form of one character. */
  function LowerChar(c: char): (r: char)
    ensures !IsUpper(r)
    ensures !IsUpper(c) ==> r == c
    ensures IsUpper(c) ==> 'a' <= r <= 'z' && r as int - c as int == 32
  {
    if IsUpper(c) then (c as int + 32) as char else c
  }

  /** `s.toLowerCase()`, restricted to the ASCII case mapping. */
  function Lower(s: string): (r: string)
    ensures |r| == |s|
    ensures forall i :: 0 <= i < |s| ==> r[i] == LowerChar(s[i])
  {
    seq(|s|, i requires 0 <= i < |s| => LowerChar(s[i]))
  }

  /** Lower-casing twice is lower-casing once. */
  lemma LowerIdempotent(s: string)
    ensures Lower(Lower(s)) == Lower(s)
  {
  }

  /** `q` occurs in `s` starting at index `i`. */
  predicate OccursAt(s: string, q: string, i: int) {
    0 <= i && i + |q| <= |s| && s[i..i + |q|] == q
  }

  /** The meaning of `s.contains(q)`: some window of `s` equals `q`. */
  ghost predicate IsSubstring(q: string, s: string) {
    exists i :: OccursAt(s, q, i)
  }

  /** `s.contains(q)`, computed by trying each start position in turn; it
      decides exactly the substring relation, in both directions. */
  function Contains(s: string, q: string): (r: bool)
    ensures r <==> IsSubstring(q, s)
    decreases |s|
  {
    if |q| > |s| then
      assert forall i :: !OccursAt(s, q, i);
      false
    else
      SubstringByFirstWindow(s, q);
      s[..|q|] == q || Contains(s[1..], q)
  }

  /** An occurrence in `s[1..]` is an occurrence in `s`, one place later. */
  lemma OccursInTail(s: string, q: string, i: int)
    requires |s| > 0
    ensures OccursAt(s[1..], q, i) <==> 0 <= i && OccursAt(s, q, i + 1)
  {
  }

  /** `q` occurs in `s` if and only if it occurs at the front or somewhere in
      `s[1..]`: the step `Contains` takes. */
  lemma SubstringByFirstWindow(s: string, q: string)
    requires |q| <= |s|
    ensures IsSubstring(q, s) <==> s[..|q|] == q || (|s| > 0 && IsSubstring(q, s[1..]))
  {
    if s[..|q|] == q {
      assert OccursAt(s, q, 0);
    } else {
      if |s| > 0 && IsSubstring(q, s[1..]) {
        var i :| OccursAt(s[1..], q, i);
        OccursInTail(s, q, i);
      }
      if IsSubstring(q, s) {
        var i :| OccursAt(s, q, i);
        assert i != 0;
        OccursInTail(s, q, i - 1);
      }
    }
  }

  /** An occurrence of `q` inside an occurrence of `p` is an occurrence in `s`:
      the substring relation is transitive. */
  lemma SubstringTransitive(q: string, p: string, s: string)
    requires IsSubstring(q, p) && IsSubstring(p, s)
    ensures IsSubstring(q, s)
  {
    var i :| OccursAt(p, q, i);
    var j :| OccursAt(s, p, j);
    forall k | 0 <= k < |q|
      ensures s[j + i + k] == q[k]
    {
      assert q[k] == p[i..i + |q|][k] == p[i + k];
      assert p[i + k] == s[j..j + |p|][i + k] == s[j + i + k];
    }
    assert s[j + i..j + i + |q|] == q;
    assert OccursAt(s, q, j + i);
  }

  /** Two characters are equal ignoring case, the way Kotlin's
      `equals(ignoreCase = true)` compares them: the same character, or the
      same after case mapping. */
  predicate CharEqualsIgnoreCase(a: char, b: char) {
    a == b || LowerChar(a) == LowerChar(b)
  }

  /** `a.equals(b, ignoreCase = true)`: the same length and pairwise equal
      characters ignoring case, which is the same as equal lower-case forms. */
  function EqualsIgnoreCase(a: string, b: string): (r: bool)
    ensures r <==> Lower(a) == Lower(b)
  {
    |a| == |b| && forall i :: 0 <= i < |a| ==> CharEqualsIgnoreCase(a[i], b[i])
  }
}
