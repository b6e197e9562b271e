/** The two line matchers of src/lib.rs, `search` and
    `search_case_insensitive`: each keeps, in order, the lines of the contents
    that contain the query. The functions `Matching` and `MatchingIgnoreCase`
    say what the result is; the methods `Search` and `SearchCaseInsensitive`
    follow the source's push loops and are proved to compute it.

    The source returns slices borrowed from `contents`; here the result holds
    the same characters as values. */
module Search {
  import opened Text
  import opened LineSplit
  import opened Seqs

  /** The test `search` applies to each line. */
  function HasQuery(query: string): string -> bool
  {
    (line: string) => Contains(line, query)
  }

  /** The test `search_case_insensitive` applies to each line. */
  function HasQueryIgnoreCase(query: string): string -> bool
  {
    (line: string) => Contains(Lower(line), Lower(query))
  }

  /** The lines of `contents` that contain `query`, in their original order. */
  function Matching(query: string, contents: string): seq<string>
  {
    Filter(Lines(contents), HasQuery(query))
  }

  /** The lines of `contents` whose lower-cased form contains the lower-cased
      `query`, in their original order and original casing. */
  function MatchingIgnoreCase(query: string, contents: string): seq<string>
  {
    Filter(Lines(contents), HasQueryIgnoreCase(query))
  }

  /** `search` returns only lines of the contents that hold the query, misses
      none of them, and keeps them in the order of the contents. */
  lemma MatchingSoundAndComplete(query: string, contents: string)
    ensures forall l :: l in Matching(query, contents) <==> l in Lines(contents) && Contains(l, query)
    ensures IsSubsequence(Matching(query, contents), Lines(contents))
  {
    FilterIsSubsequence(Lines(contents), HasQuery(query));
  }

  /** `search_case_insensitive` returns exactly the original, un-folded lines
      whose folded form holds the folded query, in the order of the contents. */
  lemma MatchingIgnoreCaseSoundAndComplete(query: string, contents: string)
    ensures forall l :: l in MatchingIgnoreCase(query, contents)
                        <==> l in Lines(contents) && Contains(Lower(l), Lower(query))
    ensures IsSubsequence(MatchingIgnoreCase(query, contents), Lines(contents))
  {
    FilterIsSubsequence(Lines(contents), HasQueryIgnoreCase(query));
  }

  /** A line that occurs several times in the contents and holds the query
      is returned as many times by `search`; one that lacks it, never. */
  lemma MatchingKeepsRepeatedLines(query: string, contents: string, l: string)
    ensures multiset(Matching(query, contents))[l]
            == (if Contains(l, query) then multiset(Lines(contents))[l] else 0)
  {
  }

  /** The same for `search_case_insensitive`, with the folded test. */
  lemma MatchingIgnoreCaseKeepsRepeatedLines(query: string, contents: string, l: string)
    ensures multiset(MatchingIgnoreCase(query, contents))[l]
            == (if Contains(Lower(l), Lower(query)) then multiset(Lines(contents))[l] else 0)
  {
    FilterKeepsEveryCopy(Lines(contents), HasQueryIgnoreCase(query), l);
  }

  /** How one line of the contents contributes to `Matching`. */
  lemma MatchingStep(query: string, s: string, line: string, rest: string)
    requires Lines(s) == [line] + Lines(rest)
    ensures Matching(query, s) == (if Contains(line, query) then [line] else []) + Matching(query, rest)
  {
  }

  /** How one line of the contents contributes to `MatchingIgnoreCase`. */
  lemma MatchingIgnoreCaseStep(query: string, s: string, line: string, rest: string)
    requires Lines(s) == [line] + Lines(rest)
    ensures MatchingIgnoreCase(query, s)
            == (if Contains(Lower(line), Lower(query)) then [line] else []) + MatchingIgnoreCase(query, rest)
  {
  }

  /** `search`: walk the lines of `contents` and push each one that contains
      `query`. */
  method Search(query: string, contents: string) returns (results: seq<string>)
    ensures results == Matching(query, contents)
  {
    results := [];
    var start := 0;
    assert contents[start..] == contents;
    while start < |contents|
      invariant 0 <= start <= |contents|
      invariant results + Matching(query, contents[start..]) == Matching(query, contents)
      decreases |contents| - start
    {
      ghost var before := results;
      var line, next := NextLine(contents, start);
      var found := HasSubstring(line, query);
      ghost var kept := if found then [line] else [];
      assert Matching(query, contents[start..]) == kept + Matching(query, contents[next..]) by {
        MatchingStep(query, contents[start..], line, contents[next..]);
      }
      if found {
        results := results + [line];
      }
      assert results == before + kept;
      AppendAssociative(before, kept, Matching(query, contents[next..]));
      start := next;
    }
    assert contents[start..] == [];
  }

  /** `search_case_insensitive`: lower-case the query once, then push each
      line whose lower-cased form contains it. The line pushed is the
      original one. */
  method SearchCaseInsensitive(query: string, contents: string) returns (results: seq<string>)
    ensures results == MatchingIgnoreCase(query, contents)
  {
    var lowered := Lower(query);
    results := [];
    var start := 0;
    assert contents[start..] == contents;
    while start < |contents|
      invariant 0 <= start <= |contents|
      invariant results + MatchingIgnoreCase(query, contents[start..]) == MatchingIgnoreCase(query, contents)
      decreases |contents| - start
    {
      ghost var before := results;
      var line, next := NextLine(contents, start);
      var found := HasSubstring(Lower(line), lowered);
      ghost var kept := if found then [line] else [];
      assert MatchingIgnoreCase(query, contents[start..]) == kept + MatchingIgnoreCase(query, contents[next..]) by {
        MatchingIgnoreCaseStep(query, contents[start..], line, contents[next..]);
      }
      if found {
        results := results + [line];
      }
      assert results == before + kept;
      AppendAssociative(before, kept, MatchingIgnoreCase(query, contents[next..]));
      start := next;
    }
    assert contents[start..] == [];
  }

  /** The empty query matches every line, with or without case folding. */
  lemma EmptyQueryMatchesEveryLine(contents: string)
    ensures Matching("", contents) == Lines(contents)
    ensures MatchingIgnoreCase("", contents) == Lines(contents)
  {
    forall l | l in Lines(contents)
      ensures Contains(l, "") && Contains(Lower(l), "")
    {
      ContainsEmpty(l);
      ContainsEmpty(Lower(l));
    }
    assert Lower("") == "";
    FilterKeepsAll(Lines(contents), HasQuery(""));
    FilterKeepsAll(Lines(contents), HasQueryIgnoreCase(""));
  }

  /** Only the folded query matters to the case-insensitive matcher. */
  lemma IgnoreCaseQueryCasingIrrelevant(query: string, query': string, contents: string)
    requires Lower(query) == Lower(query')
    ensures MatchingIgnoreCase(query, contents) == MatchingIgnoreCase(query', contents)
  {
  }

  /** Lower-casing the query first does not change the case-insensitive result. */
  lemma IgnoreCaseFoldedQuery(query: string, contents: string)
    ensures MatchingIgnoreCase(Lower(query), contents) == MatchingIgnoreCase(query, contents)
  {
    LowerIdempotent(query);
    IgnoreCaseQueryCasingIrrelevant(Lower(query), query, contents);
  }

  /** Every case-sensitive match is also a case-insensitive one, and they come
      in the same order. */
  lemma CaseSensitiveWithinIgnoreCase(query: string, contents: string)
    ensures IsSubsequence(Matching(query, contents), MatchingIgnoreCase(query, contents))
  {
    forall l | l in Lines(contents) && Contains(l, query)
      ensures Contains(Lower(l), Lower(query))
    {
      ContainsLowered(l, query);
    }
    FilterMonotone(Lines(contents), HasQuery(query),
                   HasQueryIgnoreCase(query));
  }
}
