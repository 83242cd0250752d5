/** Strings as the pages use them: ASCII lower-casing, substring search
    (`String.prototype.includes`) and the ordering of JavaScript's `<` on
    strings (lexicographic on characters, a proper prefix first). */
module Text {

  type String = seq<char>

  function LowerChar(c: char): char
  {
    if 'A' <= c <= 'Z' then (c as int + 32) as char else c
  }

  /** `toLowerCase`, restricted to ASCII letters. */
  function Lower(s: String): (r: String)
    ensures |r| == |s|
    ensures forall i :: 0 <= i < |s| ==> r[i] == LowerChar(s[i])
  {
    seq(|s|, i requires 0 <= i < |s| => LowerChar(s[i]))
  }

  /** Lower-casing is idempotent and never leaves an upper-case ASCII letter. */
  lemma LowerIdempotent(s: String)
    ensures Lower(Lower(s)) == Lower(s)
    ensures forall i :: 0 <= i < |s| ==> !('A' <= Lower(s)[i] <= 'Z')
  {
  }

  /** Lower-casing commutes with taking a slice. */
  lemma LowerSlice(s: String, i: nat, j: nat)
    requires i <= j <= |s|
    ensures Lower(s)[i..j] == Lower(s[i..j])
  {
  }

  /** `length` of a JavaScript string: the number of UTF-16 code units, two
      for a character outside the Basic Multilingual Plane. */
  function Utf16Length(s: String): (n: nat)
    ensures |s| <= n <= 2 * |s|
  {
    if s == [] then 0
    else Utf16Length(s[..|s| - 1]) + (if s[|s| - 1] as int >= 0x1_0000 then 2 else 1)
  }

  predicate OccursAt(hay: String, needle: String, i: nat)
  {
    i + |needle| <= |hay| && hay[i..i + |needle|] == needle
  }

  /** `hay.includes(needle)`. */
  predicate Contains(hay: String, needle: String)
    ensures Contains(hay, needle) ==> |needle| <= |hay|
  {
    exists i: nat | i <= |hay| :: OccursAt(hay, needle, i)
  }

  /** Every string contains the empty string and itself; containment is
      preserved by lower-casing both sides. */
  lemma ContainsFacts(hay: String, needle: String)
    ensures Contains(hay, [])
    ensures Contains(hay, hay)
    ensures Contains(hay, needle) ==> Contains(Lower(hay), Lower(needle))
  {
    assert OccursAt(hay, [], 0);
    assert OccursAt(hay, hay, 0);
    if Contains(hay, needle) {
      var i: nat :| i <= |hay| && OccursAt(hay, needle, i);
      LowerSlice(hay, i, i + |needle|);
      assert OccursAt(Lower(hay), Lower(needle), i);
    }
  }

  /** JavaScript's `a < b` on strings. */
  predicate LexLess(a: String, b: String)
  {
    if |a| == 0 then |b| > 0
    else if |b| == 0 then false
    else if a[0] != b[0] then a[0] < b[0]
    else LexLess(a[1..], b[1..])
  }

  lemma {:induction false} LexLessIrreflexive(a: String)
    ensures !LexLess(a, a)
  {
    if |a| > 0 {
      LexLessIrreflexive(a[1..]);
    }
  }

  lemma {:induction false} LexLessAsymmetric(a: String, b: String)
    ensures !(LexLess(a, b) && LexLess(b, a))
  {
    if |a| > 0 && |b| > 0 && a[0] == b[0] {
      LexLessAsymmetric(a[1..], b[1..]);
    }
  }

  lemma {:induction false} LexLessTransitive(a: String, b: String, c: String)
    requires LexLess(a, b) && LexLess(b, c)
    ensures LexLess(a, c)
  {
    if |a| > 0 && |b| > 0 && |c| > 0 && a[0] == b[0] && b[0] == c[0] {
      LexLessTransitive(a[1..], b[1..], c[1..]);
    }
  }

  /** Two distinct strings are always ordered one way or the other. */
  lemma {:induction false} LexLessTotal(a: String, b: String)
    ensures a == b || LexLess(a, b) || LexLess(b, a)
  {
    if |a| > 0 && |b| > 0 && a[0] == b[0] {
      LexLessTotal(a[1..], b[1..]);
      if a[1..] == b[1..] {
        assert a == [a[0]] + a[1..] && b == [b[0]] + b[1..];
      }
    }
  }

  /** The three-way comparison `a < b ? -1 : a > b ? 1 : 0`. It is zero
      exactly on equal strings and flips sign when its arguments swap. */
  function LexCompare(a: String, b: String): (r: int)
    ensures r == -1 || r == 0 || r == 1
    ensures r == 0 <==> a == b
    ensures r < 0 <==> LexLess(a, b)
    ensures r > 0 <==> LexLess(b, a)
  {
    LexLessIrreflexive(a);
    LexLessAsymmetric(a, b);
    LexLessTotal(a, b);
    if LexLess(a, b) then -1 else if LexLess(b, a) then 1 else 0
  }

  lemma LexCompareAntisymmetric(a: String, b: String)
    ensures LexCompare(a, b) == -LexCompare(b, a)
  {
  }

  lemma LexCompareTransitive(a: String, b: String, c: String)
    requires LexCompare(a, b) <= 0 && LexCompare(b, c) <= 0
    ensures LexCompare(a, c) <= 0
  {
    if a != b && b != c {
      LexLessTransitive(a, b, c);
    }
  }
}
