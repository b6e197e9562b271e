/** Rust's `str::lines()`, which both matchers of src/lib.rs iterate over.
    The text is cut after every '\n'; the '\n' is dropped, and so is one '\r'
    just before it. A final segment without a '\n' is a line as it stands
    (a '\r' ending it is kept), so a trailing '\n' adds no empty line and the
    empty text has no lines at all. */
module LineSplit {

  /** The index of the first '\n' at or after `i`, or `|s|` when there is none. */
  function LineEnd(s: string, i: nat): (k: nat)
    requires i <= |s|
    ensures i <= k <= |s|
    ensures k < |s| ==> s[k] == '\n'
    ensures forall j :: i <= j < k ==> s[j] != '\n'
    decreases |s| - i
  {
    if i == |s| || s[i] == '\n' then i else LineEnd(s, i + 1)
  }

  /** `LineEnd` is the only index with the properties it promises. */
  lemma LineEndUnique(s: string, i: nat, k: nat)
    requires i <= k <= |s|
    requires k < |s| ==> s[k] == '\n'
    requires forall j :: i <= j < k ==> s[j] != '\n'
    ensures LineEnd(s, i) == k
  {
  }

  predicate EndsWithCR(l: string)
  {
    |l| > 0 && l[|l| - 1] == '\r'
  }

  function StripCR(l: string): string
  {
    if EndsWithCR(l) then l[..|l| - 1] else l
  }

  /** The lines of `s`, in order. */
  function Lines(s: string): (ls: seq<string>)
    ensures forall i :: 0 <= i < |ls| ==> '\n' !in ls[i]
    decreases |s|
  {
    if |s| == 0 then []
    else
      var k := LineEnd(s, 0);
      if k == |s| then [s]
      else [StripCR(s[..k])] + Lines(s[k + 1..])
  }

  /** One step of the `lines()` iterator: the line that starts at `start`,
      and the index where the next one starts. */
  method NextLine(s: string, start: nat) returns (line: string, next: nat)
    requires start < |s|
    ensures start < next <= |s|
    ensures Lines(s[start..]) == [line] + Lines(s[next..])
  {
    var k := start;
    while k < |s| && s[k] != '\n'
      invariant start <= k <= |s|
      invariant forall j :: start <= j < k ==> s[j] != '\n'
    {
      k := k + 1;
    }
    ghost var t := s[start..];
    LineEndUnique(t, 0, k - start);
    if k == |s| {
      line, next := s[start..], |s|;
    } else {
      assert t[..k - start] == s[start..k];
      assert t[k - start + 1..] == s[k + 1..];
      line, next := StripCR(s[start..k]), k + 1;
    }
  }

  /** A line without '\n' or a final '\r', ended by '\n', is read back as is. */
  lemma LinesOfTerminated(l: string, rest: string)
    requires '\n' !in l && !EndsWithCR(l)
    ensures Lines(l + "\n" + rest) == [l] + Lines(rest)
  {
    var s := l + "\n" + rest;
    LineEndUnique(s, 0, |l|);
    assert s[..|l|] == l;
    assert s[|l| + 1..] == rest;
  }

  /** A line without '\n', ended by "\r\n", is read back as is. */
  lemma LinesOfCrLfTerminated(l: string, rest: string)
    requires '\n' !in l
    ensures Lines(l + "\r\n" + rest) == [l] + Lines(rest)
  {
    var s := l + "\r\n" + rest;
    LineEndUnique(s, 0, |l| + 1);
    assert s[..|l| + 1] == l + "\r";
    assert (l + "\r")[..|l|] == l;
    assert s[|l| + 2..] == rest;
  }

  /** A final line without a terminator is one line, even when it ends in '\r'. */
  lemma LinesOfUnterminated(l: string)
    requires l != [] && '\n' !in l
    ensures Lines(l) == [l]
  {
  }

  /** Writes each line followed by '\n'. */
  function Unlines(ls: seq<string>): string
  {
    if |ls| == 0 then [] else ls[0] + "\n" + Unlines(ls[1..])
  }

  /** Lines written one per '\n'-terminated record are read back unchanged,
      provided none holds a '\n' or ends in '\r'. */
  lemma {:induction false} LinesUnlines(ls: seq<string>)
    requires forall i :: 0 <= i < |ls| ==> '\n' !in ls[i] && !EndsWithCR(ls[i])
    ensures Lines(Unlines(ls)) == ls
    decreases |ls|
  {
    if |ls| > 0 {
      LinesOfTerminated(ls[0], Unlines(ls[1..]));
      LinesUnlines(ls[1..]);
    }
  }

  function NewlineCount(s: string): nat
  {
    multiset(s)['\n']
  }

  /** There is one line per '\n', plus one for a final unterminated line. */
  lemma {:induction false} LineCount(s: string)
    ensures |Lines(s)| == NewlineCount(s) + (if |s| > 0 && s[|s| - 1] != '\n' then 1 else 0)
    decreases |s|
  {
    if |s| > 0 {
      var k := LineEnd(s, 0);
      assert '\n' !in s[..k];
      if k == |s| {
        assert s[..k] == s;
      } else {
        var rest := s[k + 1..];
        assert s == s[..k] + [s[k]] + rest;
        assert multiset(s) == multiset(s[..k]) + multiset([s[k]]) + multiset(rest);
        LineCount(rest);
        if |rest| > 0 {
          assert s[|s| - 1] == rest[|rest| - 1];
        }
      }
    }
  }

  /** A trailing '\n' after a last line that does not end in '\r' adds no line. */
  lemma {:induction false} TrailingNewlineAddsNoLine(s: string)
    requires |s| > 0 && s[|s| - 1] != '\n' && s[|s| - 1] != '\r'
    ensures Lines(s + "\n") == Lines(s)
    decreases |s|
  {
    var t := s + "\n";
    var k := LineEnd(s, 0);
    if k == |s| {
      LineEndUnique(t, 0, |s|);
      assert t[..|s|] == s;
    } else {
      LineEndUnique(t, 0, k);
      var rest := s[k + 1..];
      assert t[..k] == s[..k];
      assert t[k + 1..] == rest + "\n";
      TrailingNewlineAddsNoLine(rest);
    }
  }

  /** A trailing "\r\n" after a last line adds no line. */
  lemma {:induction false} TrailingCrLfAddsNoLine(s: string)
    requires |s| > 0 && s[|s| - 1] != '\n'
    ensures Lines(s + "\r\n") == Lines(s)
    decreases |s|
  {
    var t := s + "\r\n";
    var k := LineEnd(s, 0);
    if k == |s| {
      assert Lines(t) == [StripCR(s + "\r")] by {
        LineEndUnique(t, 0, |s| + 1);
        assert t[..|s| + 1] == s + "\r";
        assert t[|s| + 2..] == [];
      }
      assert (s + "\r")[..|s|] == s;
    } else {
      var rest := s[k + 1..];
      assert Lines(t) == [StripCR(s[..k])] + Lines(rest + "\r\n") by {
        LineEndUnique(t, 0, k);
        assert t[..k] == s[..k];
        assert t[k + 1..] == rest + "\r\n";
      }
      TrailingCrLfAddsNoLine(rest);
    }
  }
}
