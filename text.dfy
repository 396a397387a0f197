/**
 * Strings as the query pipeline compares them: ASCII lower-casing for the
 * case-insensitive match, substring containment, and the code-point
 * lexicographic order in which group keys are sorted.
 */
module Text {

  predicate IsUpper(c: char) {
    'A' <= c <= 'Z'
  }

  /** The lower-case form of an ASCII letter; every other character is kept. */
  function LowerChar(c: char): (d: char)
    ensures !IsUpper(d)
    ensures IsUpper(c) ==> d as int - c as int == 'a' as int - 'A' as int
    ensures !IsUpper(c) ==> d == c
  {
    if IsUpper(c) then (c as int - 'A' as int + 'a' as int) as char else c
  }

  /** Lower-cases a whole string, character by character. */
  function Lower(s: string): (r: string)
    ensures |r| == |s|
    ensures forall i :: 0 <= i < |s| ==> r[i] == LowerChar(s[i])
  {
    seq(|s|, i requires 0 <= i < |s| => LowerChar(s[i]))
  }

  predicate IsPrefix(p: string, s: string) {
    |p| <= |s| && s[..|p|] == p
  }

  /** `p` occurs in `s` starting at position `i`. */
  predicate OccursAt(s: string, p: string, i: int) {
    0 <= i && i + |p| <= |s| && s[i..i + |p|] == p
  }

  /** Dropping the first character of `s` moves every later occurrence one place left. */
  lemma OccursAtTail(s: string, p: string)
    requires |s| > 0
    ensures forall i :: 0 <= i ==> (OccursAt(s[1..], p, i) <==> OccursAt(s, p, i + 1))
  {
  }

  /** `p` occurs somewhere in `s` as a contiguous run of characters. */
  predicate Contains(s: string, p: string): (b: bool)
    ensures b <==> exists i :: OccursAt(s, p, i)
    decreases |s|
  {
    if IsPrefix(p, s) then
      assert OccursAt(s, p, 0);
      true
    else if |s| == 0 then
      false
    else
      OccursAtTail(s, p);
      assert !OccursAt(s, p, 0);
      assert forall i :: OccursAt(s, p, i) ==> OccursAt(s[1..], p, i - 1);
      Contains(s[1..], p)
  }

  /**
   * Strict lexicographic order on code points, as Python compares `str`
   * values: it never relates a string to itself, and a proper prefix comes
   * before every longer string that extends it.
   */
  predicate Below(a: string, b: string): (r: bool)
    ensures r ==> a != b
    ensures |a| < |b| && a == b[..|a|] ==> r
    decreases |a|
  {
    if |a| == 0 then |b| > 0
    else if |b| == 0 then false
    else
      assert |a| < |b| && a == b[..|a|] ==> a[1..] == b[1..][..|a| - 1];
      a[0] < b[0] || (a[0] == b[0] && Below(a[1..], b[1..]))
  }

  lemma {:induction false} BelowTransitive(a: string, b: string, c: string)
    requires Below(a, b) && Below(b, c)
    ensures Below(a, c)
    decreases |a|
  {
    if |a| > 0 && a[0] == b[0] && b[0] == c[0] {
      BelowTransitive(a[1..], b[1..], c[1..]);
    }
  }

  /** Any two different strings are ordered one way or the other. */
  lemma {:induction false} BelowTotal(a: string, b: string)
    requires a != b
    ensures Below(a, b) || Below(b, a)
    decreases |a|
  {
    if |a| > 0 && |b| > 0 && a[0] == b[0] {
      assert a == [a[0]] + a[1..] && b == [b[0]] + b[1..];
      BelowTotal(a[1..], b[1..]);
    }
  }

  lemma {:induction false} BelowAsymmetric(a: string, b: string)
    requires Below(a, b)
    ensures !Below(b, a)
    decreases |a|
  {
    if |a| > 0 && |b| > 0 && a[0] == b[0] {
      BelowAsymmetric(a[1..], b[1..]);
    }
  }
}
