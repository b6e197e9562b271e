# minigrep in Dafny

This is a model of the core of `minigrep`, a small line-search library. Given a query and the text of a file, `search` returns every line of the text that contains the query, and `search_case_insensitive` does the same after lower-casing both sides. `Config::new` reads the query and file path from the argument list and sets an `ignore_case` flag when the `IGNORE_CASE` environment variable is set. The rest of the program does not use the case-insensitive path: `run` always calls `search` (src/lib.rs:31) and never reads `ignore_case`, and `src/main.rs` calls none of the library — it prints the arguments and then the whole file. The model covers the three pure pieces of `src/lib.rs`:

- **`Config::new`** (`configuration.dfy`, module `Configuration`). It checks the argument list, picks out the query and the file path, and derives the case flag from the `IGNORE_CASE` lookup.
- **`search` and `search_case_insensitive`** (`search.dfy`, module `Search`). Each walks the lines of the contents and keeps, in order, those that contain the query. The functions `Matching` and `MatchingIgnoreCase` define what each result is: the lines filtered by a containment test. The methods `Search` and `SearchCaseInsensitive` follow the source's push loops, and their loop invariants prove that they compute those functions.
- The string primitives these rely on:
  - `str::lines()` (`lines.dfy`, module `LineSplit`);
  - `str::contains` and lower-casing (`text.dfy`, module `Text`);
  - order-preserving filtering (`seqs.dfy`, module `Seqs`).

The unit tests of `src/lib.rs` that do not use the file system appear as lemmas in `scenarios.dfy`. So do a few cases that pin down how line endings are read.

Modelling decisions:

- **Line splitting.** This follows Rust's `str::lines()`:
  - the text is cut after every `'\n'`, and that `'\n'` is dropped;
  - one `'\r'` just before the `'\n'` is dropped too;
  - a final segment with no `'\n'` is a line exactly as written, so a `'\r'` at its end is kept;
  - a trailing `'\n'` adds no empty line, and the empty text has no lines.
- **Containment.** `Contains(s, q)` holds when `q` occurs in `s` as a contiguous run, so the empty query is contained in every string. `Text.HasSubstring` is a left-to-right scan that decides it.
- **Lower-casing.** It is ASCII-only: `'A'..'Z'` map to `'a'..'z'`, and every other character stays the same (see "Left out").
- **The `IGNORE_CASE` lookup.** `env::var` is a parameter of type `VarLookup`: `Present(value)`, `NotPresent` or `NotUnicode`. `is_ok()` holds only for `Present`, whatever the value. A variable that is set to a non-Unicode value therefore does not turn on case-insensitive matching.
- **Results are values.** The source returns slices borrowed from `contents`. Here each result holds the same characters as a value.
- **Empty query and file path are accepted.** `Config::new` never checks that the query or the file path is non-empty, so `Configuration.New` accepts empty strings.
- **Determinism.** Both matchers are pure. The model's functions are deterministic by construction, so calling a matcher twice on the same input gives the same result.

## Model

| member | source | states |
|---|---|---|
| Configuration.New | src/lib.rs:11-25 | fails, with the message "Not enough arguments.", exactly when fewer than three arguments are given; otherwise the query is argument 1 and the file path argument 2, both unchanged, and case is ignored exactly when the `IGNORE_CASE` lookup succeeded |
| Configuration.NewReadsOnlyQueryAndPath | src/lib.rs:16-17 | two argument lists of length at least 3 that agree at indices 1 and 2 give the same configuration; the program name and any extra arguments make no difference |
| Configuration.NewIgnoresVariableValue | src/lib.rs:18 | any two values of the set variable give the same configuration: only its presence matters |
| Scenarios.ConfigFromThreeArguments | src/lib.rs:77-89 | `["minigrep", "query", "file_path"]` gives query "query" and file path "file_path", whatever the `IGNORE_CASE` lookup gives, with case ignored exactly when it succeeded |
| Scenarios.ConfigFromTwoArgumentsFails | src/lib.rs:91-98 | `["minigrep", "query"]` is the "Not enough arguments." error, whatever the `IGNORE_CASE` lookup gives |
| Search.Search | src/lib.rs:38-51 | the push loop returns exactly the lines of the contents that contain the query, in their original order (`Matching`) |
| Search.SearchCaseInsensitive | src/lib.rs:53-69 | the push loop, with the query lower-cased once, returns exactly the original lines whose lower-cased form contains the lower-cased query, in their original order (`MatchingIgnoreCase`) |
| Search.MatchingStep | src/lib.rs:42-47 | a line adds itself to the `search` result exactly when it contains the query; the lines after it do the same |
| Search.MatchingIgnoreCaseStep | src/lib.rs:60-65 | a line adds itself, un-folded, to the `search_case_insensitive` result exactly when its folded form contains the folded query |
| Search.MatchingKeepsRepeatedLines | src/lib.rs:42-47 | a line that occurs several times and contains the query is returned as many times as it occurs; a line without the query, never |
| Search.MatchingIgnoreCaseKeepsRepeatedLines | src/lib.rs:60-65 | the same for `search_case_insensitive`, with the folded test |
| Search.MatchingSoundAndComplete | src/lib.rs:42-47 | a string is in the `search` result if and only if it is a line of the contents that contains the query; the result is a subsequence of the lines |
| Search.MatchingIgnoreCaseSoundAndComplete | src/lib.rs:55-65 | a string is in the `search_case_insensitive` result if and only if it is an original line whose folded form contains the folded query; the result is a subsequence of the original lines |
| Search.EmptyQueryMatchesEveryLine | src/lib.rs:44 | with the empty query both matchers return every line of the contents, in order |
| Search.IgnoreCaseQueryCasingIrrelevant | src/lib.rs:55 | two queries with the same folded form give the same case-insensitive result |
| Search.IgnoreCaseFoldedQuery | src/lib.rs:55 | folding the query beforehand does not change the case-insensitive result |
| Search.CaseSensitiveWithinIgnoreCase | src/lib.rs:38-69 | every case-sensitive match is also a case-insensitive match, in the same relative order |
| Seqs.Filter | src/lib.rs:39-50 | every kept element is drawn from the input and passes the test, and every passing value appears in the result |
| Seqs.FilterKeepsEveryCopy | src/lib.rs:42-47 | each value occurs in the result exactly as often as in the input when it passes the test, and not at all when it fails |
| Seqs.FilterIsSubsequence | src/lib.rs:42-47 | filtering keeps the relative order of the input |
| Text.HasSubstring | src/lib.rs:44 | the scan answers true exactly when the query occurs in the line as a contiguous run |
| Text.ContainsEmpty | src/lib.rs:44 | the empty query occurs in every line |
| Text.LowerChar | src/lib.rs:55 | the result is never an upper-case ASCII letter; other characters are unchanged; an upper-case letter maps to the same letter in lower case |
| Text.Lower | src/lib.rs:62 | lower-casing keeps the length and folds each character on its own |
| Text.LowerIdempotent | src/lib.rs:55 | folding twice is the same as folding once |
| Text.ContainsLowered | src/lib.rs:62 | if a line contains the query, its folded form contains the folded query |
| LineSplit.Lines | src/lib.rs:42 | no line holds a `'\n'` |
| LineSplit.NextLine | src/lib.rs:42 | one step of the line iterator: the line that starts at the given index, followed by the lines of the rest, are the lines of the text from that index |
| LineSplit.LinesOfTerminated | src/lib.rs:42 | a line without `'\n'` and without a final `'\r'`, followed by `'\n'`, is read back as is, followed by the lines of the rest |
| LineSplit.LinesOfCrLfTerminated | src/lib.rs:42 | a line without `'\n'`, followed by `"\r\n"`, is read back without the `'\r'` |
| LineSplit.LinesOfUnterminated | src/lib.rs:42 | a non-empty final segment without `'\n'` is one line, even if it ends in `'\r'` |
| LineSplit.LinesUnlines | src/lib.rs:42 | lines with no `'\n'` and no final `'\r'`, each written followed by `'\n'`, are read back unchanged |
| LineSplit.LineCount | src/lib.rs:42 | the number of lines is the number of `'\n'`, plus one when the text is non-empty and does not end in `'\n'` |
| LineSplit.TrailingNewlineAddsNoLine | src/lib.rs:42 | appending `'\n'` to non-empty text whose last character is neither `'\n'` nor `'\r'` leaves its lines unchanged |
| LineSplit.TrailingCrLfAddsNoLine | src/lib.rs:42 | appending `"\r\n"` to non-empty text that does not end in `'\n'` leaves its lines unchanged |
| Scenarios.LinesOfEmptyAndNewline | src/lib.rs:42 | `""` has no lines; `"\n"` is one empty line |
| Scenarios.LinesOfCrLfText | src/lib.rs:42 | `"a\r\nb\n"` reads as `["a", "b"]` |
| Scenarios.LinesKeepLoneCarriageReturn | src/lib.rs:42 | `"a\r"` reads as `["a\r"]` |
| Scenarios.LinesKeepEmptyLine | src/lib.rs:42 | `"a\n\nb"` reads as `["a", "", "b"]` |
| Scenarios.SearchFindsSafe | src/lib.rs:189-198 | `search("safe", …)` on the three-line poem is `["safe, fast, productive."]` |
| Scenarios.SearchFindsNoUnsafe | src/lib.rs:200-209 | `search("unsafe", …)` on the same poem is empty |
| Scenarios.SearchCaseInsensitiveFindsRust | src/lib.rs:211-223 | `search_case_insensitive("rUsT", …)` is `["Rust:", "Trust me."]`, in that order and casing |
| Scenarios.SearchCaseInsensitiveFindsNoSwift | src/lib.rs:225-234 | `search_case_insensitive("Swift", …)` is empty |

## Left out

- `run` (src/lib.rs:28-36) is not modelled. It reads the file and prints each result, which is I/O. It always calls `search` and never consults `ignore_case`, so nothing in the program reaches `search_case_insensitive`. The model does not add a dispatch between the two matchers.
- `src/main.rs` is not modelled. It collects the arguments, prints them with the query and file path, reads the file and prints its whole contents; it never builds a `Config` or calls `run` or either matcher.
- The file-based tests (src/lib.rs:100-187) are not modelled, because they create and delete files.
- The process environment is not modelled. The result of `env::var("IGNORE_CASE")` is a parameter (`VarLookup`) instead.
- Text.Lower: ASCII-only. Rust's `to_lowercase` applies the full Unicode mapping, which can change a string's length and is context-dependent: `'Σ'` becomes `'ς'` at the end of a word and `'σ'` elsewhere. This model folds only `'A'..'Z'`, one character at a time.
- Text.LowerChar: ASCII-only, for the same reason as `Text.Lower`.
- Text.ContainsLowered: holds because lower-casing is ASCII-only and character by character. With Rust's `to_lowercase` it fails: `"ΑΣ"` contains `"Σ"`, but `"ας"` does not contain `"σ"`.
- Search.CaseSensitiveWithinIgnoreCase: depends on the ASCII-only lower-casing, like `Text.ContainsLowered`. With Rust's `to_lowercase`, `search("Σ", "ΑΣ")` is `["ΑΣ"]` while `search_case_insensitive("Σ", "ΑΣ")` is empty.
- The results are values, not the borrowed slices of `contents` that the source returns. Their lifetimes are not modelled.
