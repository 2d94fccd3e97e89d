/** The two string tests the storage code relies on: Guava's
    Strings.isNullOrEmpty and java.lang.String.equalsIgnoreCase. */
module JavaStrings {
  import opened CloudTypes

  /** Strings.isNullOrEmpty: null or of length zero. */
  predicate IsNullOrEmpty(s: Option<string>) {
    s.None? || s.value == []
  }

  /** Character.toUpperCase, restricted to the ASCII letters. */
  function ToUpper(c: char): char {
    if 'a' <= c <= 'z' then (c as int - 32) as char else c
  }

  /** Character.toLowerCase, restricted to the ASCII letters. */
  function ToLower(c: char): char {
    if 'A' <= c <= 'Z' then (c as int + 32) as char else c
  }

  /** The per-character test of String.regionMatches with ignoreCase set: the
      characters are equal, or their upper-case forms are, or the lower-case
      forms of those are. */
  predicate CharEqualsIgnoreCase(a: char, b: char) {
    a == b || ToUpper(a) == ToUpper(b) || ToLower(ToUpper(a)) == ToLower(ToUpper(b))
  }

  /** String.equalsIgnoreCase with a non-null argument: same length and every
      pair of characters at the same position equal up to case. */
  predicate EqualsIgnoreCase(a: string, b: string) {
    |a| == |b| && forall i :: 0 <= i < |a| ==> CharEqualsIgnoreCase(a[i], b[i])
  }

  /** The string with every ASCII letter in upper case. */
  function UpperCase(s: string): (r: string)
    ensures |r| == |s|
    ensures forall i :: 0 <= i < |s| ==> r[i] == ToUpper(s[i])
  {
    seq(|s|, i requires 0 <= i < |s| => ToUpper(s[i]))
  }

  /** Two characters agree up to case exactly when their upper-case forms are equal. */
  lemma CharEqualsIgnoreCaseIsUpperEquality(a: char, b: char)
    ensures CharEqualsIgnoreCase(a, b) <==> ToUpper(a) == ToUpper(b)
  {
  }

  /** equalsIgnoreCase is equality of the upper-cased strings, which makes it an
      equivalence relation (the three lemmas below). */
  lemma EqualsIgnoreCaseIsUpperCaseEquality(a: string, b: string)
    ensures EqualsIgnoreCase(a, b) <==> UpperCase(a) == UpperCase(b)
  {
    if UpperCase(a) == UpperCase(b) {
      forall i | 0 <= i < |a| ensures CharEqualsIgnoreCase(a[i], b[i]) {
        assert UpperCase(a)[i] == UpperCase(b)[i];
      }
    }
    if EqualsIgnoreCase(a, b) {
      forall i | 0 <= i < |a| ensures UpperCase(a)[i] == UpperCase(b)[i] {
        CharEqualsIgnoreCaseIsUpperEquality(a[i], b[i]);
      }
    }
  }

  lemma EqualsIgnoreCaseReflexive(a: string)
    ensures EqualsIgnoreCase(a, a)
  {
  }

  lemma EqualsIgnoreCaseSymmetric(a: string, b: string)
    ensures EqualsIgnoreCase(a, b) ==> EqualsIgnoreCase(b, a)
  {
    EqualsIgnoreCaseIsUpperCaseEquality(a, b);
    EqualsIgnoreCaseIsUpperCaseEquality(b, a);
  }

  lemma EqualsIgnoreCaseTransitive(a: string, b: string, c: string)
    ensures EqualsIgnoreCase(a, b) && EqualsIgnoreCase(b, c) ==> EqualsIgnoreCase(a, c)
  {
    EqualsIgnoreCaseIsUpperCaseEquality(a, b);
    EqualsIgnoreCaseIsUpperCaseEquality(b, c);
    EqualsIgnoreCaseIsUpperCaseEquality(a, c);
  }

  /** A concrete instance: a lower-case region name passes the check against
      the enum constant's name. */
  lemma EqualsIgnoreCaseExample()
    ensures EqualsIgnoreCase("US_EAST_1", "us_east_1")
    ensures !EqualsIgnoreCase("US_EAST_1", "us-east-1")
  {
    assert "us-east-1"[2] == '-';
    assert !CharEqualsIgnoreCase("US_EAST_1"[2], "us-east-1"[2]);
  }
}
