/** Case-insensitive string comparison as Java's `String.equalsIgnoreCase`
    performs it, restricted to the ASCII case mapping: two strings match when
    they have the same length and, position by position, the characters are
    equal, or equal after upper-casing, or equal after upper- then
    lower-casing. */
module CaseFold {

  function UpperChar(c: char): (u: char)
    ensures 'a' <= c <= 'z' ==> 'A' <= u <= 'Z' && u as int == c as int - 32
    ensures !('a' <= c <= 'z') ==> u == c
  {
    if 'a' <= c <= 'z' then (c as int - 32) as char else c
  }

  function LowerChar(c: char): (l: char)
    ensures 'A' <= c <= 'Z' ==> 'a' <= l <= 'z' && l as int == c as int + 32
    ensures !('A' <= c <= 'Z') ==> l == c
  {
    if 'A' <= c <= 'Z' then (c as int + 32) as char else c
  }

  /** The per-character test of `String.regionMatches(true, ...)`. */
  predicate CharMatches(c1: char, c2: char) {
    c1 == c2
    || UpperChar(c1) == UpperChar(c2)
    || LowerChar(UpperChar(c1)) == LowerChar(UpperChar(c2))
  }

  /** `a.equalsIgnoreCase(b)` for non-null `a` and `b`. */
  predicate EqualsIgnoreCase(a: string, b: string) {
    |a| == |b| && forall i :: 0 <= i < |a| ==> CharMatches(a[i], b[i])
  }

  /** The upper-cased form of a string, the reference the comparison is checked against. */
  function Upper(s: string): (u: string)
    ensures |u| == |s|
    ensures forall i :: 0 <= i < |s| ==> u[i] == UpperChar(s[i])
  {
    seq(|s|, i requires 0 <= i < |s| => UpperChar(s[i]))
  }

  /** The three-way character test is the same as comparing upper-cased characters. */
  lemma CharMatchesIffUpperEqual(c1: char, c2: char)
    ensures CharMatches(c1, c2) <==> UpperChar(c1) == UpperChar(c2)
  {
    var u1, u2 := UpperChar(c1), UpperChar(c2);
    if LowerChar(u1) == LowerChar(u2) {
      // neither upper-cased character is a lower-case letter, so lowering is injective on them
      assert !('a' <= u1 <= 'z') && !('a' <= u2 <= 'z');
      if 'A' <= u1 <= 'Z' {
        assert 'A' <= u2 <= 'Z';
      } else {
        assert !('A' <= u2 <= 'Z');
      }
    }
  }

  /** Two strings match ignoring case exactly when their upper-cased forms are equal. */
  lemma EqualsIgnoreCaseIffUpperEqual(a: string, b: string)
    ensures EqualsIgnoreCase(a, b) <==> Upper(a) == Upper(b)
  {
    if EqualsIgnoreCase(a, b) {
      forall i | 0 <= i < |a|
        ensures Upper(a)[i] == Upper(b)[i]
      {
        CharMatchesIffUpperEqual(a[i], b[i]);
      }
    }
    if Upper(a) == Upper(b) {
      assert |a| == |b|;
      forall i | 0 <= i < |a|
        ensures CharMatches(a[i], b[i])
      {
        assert Upper(a)[i] == Upper(b)[i];
        CharMatchesIffUpperEqual(a[i], b[i]);
      }
    }
  }

  /** Matching ignoring case is an equivalence relation. */
  lemma EqualsIgnoreCaseIsEquivalence(a: string, b: string, c: string)
    ensures EqualsIgnoreCase(a, a)
    ensures EqualsIgnoreCase(a, b) ==> EqualsIgnoreCase(b, a)
    ensures EqualsIgnoreCase(a, b) && EqualsIgnoreCase(b, c) ==> EqualsIgnoreCase(a, c)
  {
    EqualsIgnoreCaseIffUpperEqual(a, a);
    EqualsIgnoreCaseIffUpperEqual(a, b);
    EqualsIgnoreCaseIffUpperEqual(b, a);
    EqualsIgnoreCaseIffUpperEqual(b, c);
    EqualsIgnoreCaseIffUpperEqual(a, c);
  }
}
