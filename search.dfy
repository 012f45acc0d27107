/**
 * The search term the craft-search handler builds from the query before it
 * matches titles: the query with its first character upper-cased.
 */
module Search {

  predicate IsLowerAscii(c: char)
  {
    'a' <= c <= 'z'
  }

  /** Upper-casing of one character, for the ASCII letters. */
  function UpperCase(c: char): (r: char)
    ensures !IsLowerAscii(r)
    ensures !IsLowerAscii(c) ==> r == c
    ensures IsLowerAscii(c) ==> 'A' <= r <= 'Z' && r as int - 'A' as int == c as int - 'a' as int
  {
    if IsLowerAscii(c) then (c as int - 'a' as int + 'A' as int) as char else c
  }

  /** `charAt(0).toUpperCase() + slice(1)`. */
  function SearchTerm(query: string): (term: string)
    ensures |term| == |query|
    ensures forall i :: 1 <= i < |query| ==> term[i] == query[i]
    ensures |query| > 0 ==> term[0] == UpperCase(query[0])
  {
    if query == "" then "" else [UpperCase(query[0])] + query[1..]
  }

  /** Building the term from a term changes nothing. */
  lemma SearchTermIdempotent(query: string)
    ensures SearchTerm(SearchTerm(query)) == SearchTerm(query)
  {
    if query != "" {
      var t := SearchTerm(query);
      assert SearchTerm(t) == [UpperCase(t[0])] + t[1..];
      assert UpperCase(t[0]) == t[0];
      assert t == [t[0]] + t[1..];
    }
  }

  /** Two queries give the same term exactly when they agree after the first character and their first characters upper-case alike. */
  lemma SearchTermEqual(q1: string, q2: string)
    requires |q1| > 0 && |q2| > 0
    ensures SearchTerm(q1) == SearchTerm(q2) <==> UpperCase(q1[0]) == UpperCase(q2[0]) && q1[1..] == q2[1..]
  {
    var t1, t2 := SearchTerm(q1), SearchTerm(q2);
    if UpperCase(q1[0]) == UpperCase(q2[0]) && q1[1..] == q2[1..] {
      assert t1 == [UpperCase(q1[0])] + q1[1..];
      assert t2 == [UpperCase(q2[0])] + q2[1..];
    }
    if t1 == t2 {
      assert t1[0] == t2[0];
      assert |q1| == |q2|;
      forall i | 0 <= i < |q1| - 1 ensures q1[1..][i] == q2[1..][i] {
        assert t1[i + 1] == t2[i + 1];
      }
    }
  }
}
