/** The unit tests of src/lib.rs that do not touch the file system, stated
    about the model, plus a few line-splitting cases that pin down how
    `str::lines()` treats line ends. */
module Scenarios {
  import opened Text
  import opened Seqs
  import opened LineSplit
  import opened Search
  import opened Configuration

  /** The contents used by the tests: three lines, the last unterminated. */
  const Poem: string := "Rust:" + "\n" + ("safe, fast, productive." + "\n" + "Pick three.")
  const PoemWithTrust: string := "Rust:" + "\n" + ("safe, fast, productive." + "\n" + "Trust me.")

  lemma LinesOfThree(a: string, b: string, c: string)
    requires '\n' !in a && '\n' !in b && '\n' !in c && c != []
    requires !EndsWithCR(a) && !EndsWithCR(b)
    ensures Lines(a + "\n" + (b + "\n" + c)) == [a, b, c]
  {
    LinesOfUnterminated(c);
    LinesOfTerminated(b, c);
    LinesOfTerminated(a, b + "\n" + c);
  }

  lemma FilterOfThree(a: string, b: string, c: string, keep: string -> bool)
    ensures Filter([a, b, c], keep)
            == (if keep(a) then [a] else []) + (if keep(b) then [b] else []) + (if keep(c) then [c] else [])
  {
    assert [a, b, c] == [a] + [b, c];
    assert [b, c] == [b] + [c];
    assert [c] == [c] + [];
    FilterCons(a, [b, c], keep);
    FilterCons(b, [c], keep);
    FilterCons(c, [], keep);
  }

  lemma MatchingOfThree(query: string, contents: string, a: string, b: string, c: string)
    requires Lines(contents) == [a, b, c]
    ensures Matching(query, contents)
            == (if Contains(a, query) then [a] else []) + (if Contains(b, query) then [b] else [])
               + (if Contains(c, query) then [c] else [])
    ensures MatchingIgnoreCase(query, contents)
            == (if Contains(Lower(a), Lower(query)) then [a] else [])
               + (if Contains(Lower(b), Lower(query)) then [b] else [])
               + (if Contains(Lower(c), Lower(query)) then [c] else [])
  {
    FilterOfThree(a, b, c, HasQuery(query));
    FilterOfThree(a, b, c, HasQueryIgnoreCase(query));
  }

  lemma PoemLines()
    ensures Lines(Poem) == ["Rust:", "safe, fast, productive.", "Pick three."]
  {
    LinesOfThree("Rust:", "safe, fast, productive.", "Pick three.");
  }

  lemma PoemWithTrustLines()
    ensures Lines(PoemWithTrust) == ["Rust:", "safe, fast, productive.", "Trust me."]
  {
    LinesOfThree("Rust:", "safe, fast, productive.", "Trust me.");
  }

  lemma SafeVerdicts()
    ensures !Contains("Rust:", "safe")
    ensures Contains("safe, fast, productive.", "safe")
    ensures !Contains("Pick three.", "safe")
  {
    MissingCharNotContained("Rust:", "safe", 'a');
    assert MatchesAt("safe, fast, productive.", "safe", 0);
    MissingCharNotContained("Pick three.", "safe", 'a');
  }

  lemma SearchFindsSafe()
    ensures Matching("safe", Poem) == ["safe, fast, productive."]
  {
    PoemLines();
    MatchingOfThree("safe", Poem, "Rust:", "safe, fast, productive.", "Pick three.");
    SafeVerdicts();
  }

  lemma UnsafeVerdicts()
    ensures !Contains("Rust:", "unsafe")
    ensures !Contains("safe, fast, productive.", "unsafe")
    ensures !Contains("Pick three.", "unsafe")
  {
    MissingCharNotContained("Rust:", "unsafe", 'n');
    MissingCharNotContained("safe, fast, productive.", "unsafe", 'n');
    MissingCharNotContained("Pick three.", "unsafe", 'n');
  }

  lemma SearchFindsNoUnsafe()
    ensures Matching("unsafe", Poem) == []
  {
    PoemLines();
    MatchingOfThree("unsafe", Poem, "Rust:", "safe, fast, productive.", "Pick three.");
    UnsafeVerdicts();
  }

  /** "rust" cannot occur in the middle line: its only 'u' is preceded by 'd'. */
  lemma NoRustInMotto()
    ensures !Contains("safe, fast, productive.", "rust")
  {
    var s := "safe, fast, productive.";
    assert s[16] == 'u';
    assert 'u' !in s[..16];
    assert 'u' !in s[17..];
    OccurrenceAnchored(s, "rust", 1, 16);
    assert s[15..19][0] == 'd';
  }

  lemma RustVerdicts()
    ensures Contains(Lower("Rust:"), Lower("rUsT"))
    ensures !Contains(Lower("safe, fast, productive."), Lower("rUsT"))
    ensures Contains(Lower("Trust me."), Lower("rUsT"))
  {
    assert Lower("rUsT") == "rust";
    assert Lower("Rust:") == "rust:";
    assert MatchesAt("rust:", "rust", 0);
    assert Lower("Trust me.") == "trust me.";
    assert MatchesAt("trust me.", "rust", 1);
    assert Lower("safe, fast, productive.") == "safe, fast, productive.";
    NoRustInMotto();
  }

  lemma SearchCaseInsensitiveFindsRust()
    ensures MatchingIgnoreCase("rUsT", PoemWithTrust) == ["Rust:", "Trust me."]
  {
    PoemWithTrustLines();
    MatchingOfThree("rUsT", PoemWithTrust, "Rust:", "safe, fast, productive.", "Trust me.");
    RustVerdicts();
  }

  lemma SwiftVerdicts()
    ensures !Contains(Lower("Rust:"), Lower("Swift"))
    ensures !Contains(Lower("safe, fast, productive."), Lower("Swift"))
    ensures !Contains(Lower("Trust me."), Lower("Swift"))
  {
    assert Lower("Swift") == "swift";
    assert Lower("Rust:") == "rust:";
    MissingCharNotContained("rust:", "swift", 'w');
    assert Lower("safe, fast, productive.") == "safe, fast, productive.";
    MissingCharNotContained("safe, fast, productive.", "swift", 'w');
    assert Lower("Trust me.") == "trust me.";
    MissingCharNotContained("trust me.", "swift", 'w');
  }

  lemma SearchCaseInsensitiveFindsNoSwift()
    ensures MatchingIgnoreCase("Swift", PoemWithTrust) == []
  {
    PoemWithTrustLines();
    MatchingOfThree("Swift", PoemWithTrust, "Rust:", "safe, fast, productive.", "Trust me.");
    SwiftVerdicts();
  }

  /** The empty text has no lines; a lone '\n' makes one empty line. */
  lemma LinesOfEmptyAndNewline()
    ensures Lines("") == []
    ensures Lines("\n") == [""]
  {
    LinesOfTerminated("", "");
    assert "" + "\n" + "" == "\n";
  }

  /** "\r\n" ends a line like '\n' does, and a final line ending adds no line. */
  lemma LinesOfCrLfText()
    ensures Lines("a\r\nb\n") == ["a", "b"]
  {
    LinesOfTerminated("b", "");
    LinesOfCrLfTerminated("a", "b\n");
    assert "a" + "\r\n" + "b\n" == "a\r\nb\n";
    assert "b" + "\n" + "" == "b\n";
  }

  /** A '\r' with no '\n' after it stays part of the line. */
  lemma LinesKeepLoneCarriageReturn()
    ensures Lines("a\r") == ["a\r"]
  {
    LinesOfUnterminated("a\r");
  }

  /** Two '\n' in a row give an empty line between them. */
  lemma LinesKeepEmptyLine()
    ensures Lines("a\n\nb") == ["a", "", "b"]
  {
    assert "a\n\nb" == "a" + "\n" + ("" + "\n" + "b");
    LinesOfThree("a", "", "b");
  }

  /** Whatever the `IGNORE_CASE` lookup gives. */
  lemma ConfigFromThreeArguments(v: VarLookup)
    ensures New(["minigrep", "query", "file_path"], v)
            == Ok(Config("query", "file_path", v.Present?))
  {
  }

  /** Whatever the `IGNORE_CASE` lookup gives. */
  lemma ConfigFromTwoArgumentsFails(v: VarLookup)
    ensures New(["minigrep", "query"], v) == Err(NotEnoughArguments)
  {
  }
}
