/** Substring containment and ASCII case folding on strings, the two string
    primitives the line matchers of src/lib.rs rely on (`str::contains` and
    `str::to_lowercase`). */
module Text {

  /** `q` occurs in `s` starting at index `i`. */
  predicate MatchesAt(s: string, q: string, i: int)
  {
    0 <= i && i + |q| <= |s| && s[i..i + |q|] == q
  }

  /** `q` occurs in `s` as a contiguous run of characters; the empty query
      occurs in every string. */
  predicate Contains(s: string, q: string)
  {
    exists i :: 0 <= i <= |s| - |q| && MatchesAt(s, q, i)
  }

  lemma ContainsEmpty(s: string)
    ensures Contains(s, "")
  {
    assert MatchesAt(s, "", 0);
  }

  /** A query holding a character that the text lacks cannot occur in it. */
  lemma MissingCharNotContained(s: string, q: string, c: char)
    requires c in q && c !in s
    ensures !Contains(s, q)
  {
  }

  /** When the query's `k`-th character occurs in `s` only at index `p`, an
      occurrence of the query can only start at `p - k`. */
  lemma OccurrenceAnchored(s: string, q: string, k: nat, p: nat)
    requires k < |q| && p < |s|
    requires q[k] !in s[..p] && q[k] !in s[p + 1..]
    ensures Contains(s, q) ==> MatchesAt(s, q, p - k)
  {
  }

  /** The naive left-to-right scan that decides `Contains`. */
  method HasSubstring(s: string, q: string) returns (found: bool)
    ensures found <==> Contains(s, q)
  {
    if |q| > |s| {
      return false;
    }
    var i := 0;
    while i <= |s| - |q|
      invariant 0 <= i <= |s| - |q| + 1
      invariant forall j :: 0 <= j < i ==> !MatchesAt(s, q, j)
    {
      if s[i..i + |q|] == q {
        assert MatchesAt(s, q, i);
        return true;
      }
      i := i + 1;
    }
    return false;
  }

  predicate IsAsciiUpper(c: char)
  {
    'A' <= c <= 'Z'
  }

  /** ASCII-only lower-casing of one character. Rust's `to_lowercase` applies
      the full Unicode mapping, which can change a string's length; this model
      folds only 'A'..'Z' and leaves every other character as it is. */
  function LowerChar(c: char): (r: char)
    ensures !IsAsciiUpper(r)
    ensures !IsAsciiUpper(c) ==> r == c
    ensures IsAsciiUpper(c) ==> r as int - 'a' as int == c as int - 'A' as int
  {
    if IsAsciiUpper(c) then (c as int - 'A' as int + 'a' as int) as char else c
  }

  /** Character-by-character lower-casing (see `LowerChar`). */
  function Lower(s: string): (r: string)
    ensures |r| == |s|
    ensures forall i :: 0 <= i < |s| ==> r[i] == LowerChar(s[i])
  {
    seq(|s|, i requires 0 <= i < |s| => LowerChar(s[i]))
  }

  lemma LowerIdempotent(s: string)
    ensures Lower(Lower(s)) == Lower(s)
  {
  }

  /** Lower-casing commutes with taking a slice. */
  lemma LowerSlice(s: string, i: nat, j: nat)
    requires i <= j <= |s|
    ensures Lower(s[i..j]) == Lower(s)[i..j]
  {
  }

  /** A case-sensitive occurrence is also a case-insensitive one. */
  lemma ContainsLowered(s: string, q: string)
    requires Contains(s, q)
    ensures Contains(Lower(s), Lower(q))
  {
    var i :| 0 <= i <= |s| - |q| && MatchesAt(s, q, i);
    LowerSlice(s, i, i + |q|);
    assert MatchesAt(Lower(s), Lower(q), i);
  }
}
