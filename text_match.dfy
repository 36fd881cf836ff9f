/**
 * Case-insensitive substring search, as performed by Kotlin's
 * `CharSequence.contains(other, ignoreCase = true)`: the library scans every
 * offset from 0 to the length of the text (inclusive) and compares the query
 * with the text there one character at a time. Case mapping is restricted to
 * ASCII letters.
 */
module TextMatch {

  /** `Char.uppercaseChar()` on ASCII: 'a'..'z' become 'A'..'Z', every other character is kept. */
  function UpperAscii(c: char): (u: char)
    ensures !('a' <= u <= 'z')
    ensures 'A' <= u <= 'Z' <==> 'a' <= c <= 'z' || 'A' <= c <= 'Z'
    ensures u == c <==> !('a' <= c <= 'z')
  {
    if 'a' <= c <= 'z' then (c as int - 32) as char else c
  }

  /** `Char.lowercaseChar()` on ASCII: 'A'..'Z' become 'a'..'z', every other character is kept. */
  function LowerAscii(c: char): (l: char)
    ensures !('A' <= l <= 'Z')
    ensures 'a' <= l <= 'z' <==> 'a' <= c <= 'z' || 'A' <= c <= 'Z'
    ensures l == c <==> !('A' <= c <= 'Z')
  {
    if 'A' <= c <= 'Z' then (c as int + 32) as char else c
  }

  function UpperString(s: string): string
  {
    seq(|s|, k requires 0 <= k < |s| => UpperAscii(s[k]))
  }

  function LowerString(s: string): string
  {
    seq(|s|, k requires 0 <= k < |s| => LowerAscii(s[k]))
  }

  /**
   * `Char.equals(other, ignoreCase = true)`: the characters are equal, or
   * equal once both are upper-cased, or equal once both are upper-cased and
   * then lower-cased. With ASCII case mapping this is equality of the
   * upper-case forms.
   */
  predicate CharEqualsIgnoreCase(a: char, b: char)
    ensures CharEqualsIgnoreCase(a, b) <==> UpperAscii(a) == UpperAscii(b)
  {
    a == b
    || UpperAscii(a) == UpperAscii(b)
    || LowerAscii(UpperAscii(a)) == LowerAscii(UpperAscii(b))
  }

  /** Matching ignoring case is an equivalence relation. */
  lemma CharEqualsIgnoreCaseIsEquivalence(a: char, b: char, c: char)
    ensures CharEqualsIgnoreCase(a, a)
    ensures CharEqualsIgnoreCase(a, b) ==> CharEqualsIgnoreCase(b, a)
    ensures CharEqualsIgnoreCase(a, b) && CharEqualsIgnoreCase(b, c) ==> CharEqualsIgnoreCase(a, c)
  {
  }

  /** Upper- or lower-casing either side never changes whether two characters match. */
  lemma CharEqualsIgnoreCaseOfCased(a: char, b: char)
    ensures CharEqualsIgnoreCase(a, UpperAscii(b)) <==> CharEqualsIgnoreCase(a, b)
    ensures CharEqualsIgnoreCase(a, LowerAscii(b)) <==> CharEqualsIgnoreCase(a, b)
    ensures CharEqualsIgnoreCase(UpperAscii(a), b) <==> CharEqualsIgnoreCase(a, b)
    ensures CharEqualsIgnoreCase(LowerAscii(a), b) <==> CharEqualsIgnoreCase(a, b)
  {
  }

  /** `query.regionMatches(0, text, offset, query.length, ignoreCase = true)`. */
  predicate MatchesAt(text: string, offset: nat, query: string)
    ensures MatchesAt(text, offset, query) ==> |query| <= |text|
    ensures query == [] ==> (MatchesAt(text, offset, query) <==> offset <= |text|)
  {
    offset + |query| <= |text|
    && forall k :: 0 <= k < |query| ==> CharEqualsIgnoreCase(query[k], text[offset + k])
  }

  /**
   * `text.indexOf(query, from, ignoreCase = true)`: the first offset at or
   * after `from`, up to the length of the text, where `query` matches, or -1.
   */
  function IndexOfIgnoreCase(text: string, query: string, from: nat): (r: int)
    decreases |text| + 1 - from
    ensures r == -1 || (from <= r <= |text| && MatchesAt(text, r, query))
    ensures r == -1 <==> forall i :: from <= i <= |text| ==> !MatchesAt(text, i, query)
    ensures r != -1 ==> forall i :: from <= i < r ==> !MatchesAt(text, i, query)
  {
    if from > |text| then -1
    else if MatchesAt(text, from, query) then from
    else IndexOfIgnoreCase(text, query, from + 1)
  }

  /** `text.contains(query, ignoreCase = true)`: the query occurs at some offset. */
  predicate ContainsIgnoreCase(text: string, query: string)
    ensures ContainsIgnoreCase(text, query) <==> exists i :: 0 <= i <= |text| && MatchesAt(text, i, query)
  {
    IndexOfIgnoreCase(text, query, 0) >= 0
  }

  /** Every text contains the empty query. */
  lemma ContainsEmpty(text: string)
    ensures ContainsIgnoreCase(text, "")
  {
    assert MatchesAt(text, 0, "");
  }

  /** No text contains a query longer than itself. */
  lemma NotContainsLonger(text: string, query: string)
    requires |query| > |text|
    ensures !ContainsIgnoreCase(text, query)
  {
  }

  /** Upper- or lower-casing the query does not change the answer. */
  lemma ContainsCasedQuery(text: string, query: string)
    ensures ContainsIgnoreCase(text, UpperString(query)) <==> ContainsIgnoreCase(text, query)
    ensures ContainsIgnoreCase(text, LowerString(query)) <==> ContainsIgnoreCase(text, query)
  {
    forall i: nat | i <= |text|
      ensures MatchesAt(text, i, UpperString(query)) <==> MatchesAt(text, i, query)
      ensures MatchesAt(text, i, LowerString(query)) <==> MatchesAt(text, i, query)
    {
      forall k | 0 <= k < |query| && i + k < |text|
        ensures CharEqualsIgnoreCase(UpperString(query)[k], text[i + k]) <==> CharEqualsIgnoreCase(query[k], text[i + k])
        ensures CharEqualsIgnoreCase(LowerString(query)[k], text[i + k]) <==> CharEqualsIgnoreCase(query[k], text[i + k])
      {
        CharEqualsIgnoreCaseOfCased(query[k], text[i + k]);
      }
    }
  }

  /** Upper- or lower-casing the text does not change the answer either. */
  lemma ContainsInCasedText(text: string, query: string)
    ensures ContainsIgnoreCase(UpperString(text), query) <==> ContainsIgnoreCase(text, query)
    ensures ContainsIgnoreCase(LowerString(text), query) <==> ContainsIgnoreCase(text, query)
  {
    forall i: nat | i <= |text|
      ensures MatchesAt(UpperString(text), i, query) <==> MatchesAt(text, i, query)
      ensures MatchesAt(LowerString(text), i, query) <==> MatchesAt(text, i, query)
    {
      forall k | 0 <= k < |query| && i + k < |text|
        ensures CharEqualsIgnoreCase(query[k], UpperString(text)[i + k]) <==> CharEqualsIgnoreCase(query[k], text[i + k])
        ensures CharEqualsIgnoreCase(query[k], LowerString(text)[i + k]) <==> CharEqualsIgnoreCase(query[k], text[i + k])
      {
        CharEqualsIgnoreCaseOfCased(query[k], text[i + k]);
      }
    }
  }
}
