/** Python's `str.split("\n")` and `"\n".join(...)` over `string`, together
    with index-free reference definitions of "first line", "rest after the
    first line", "last line" and "everything before the last line". */
module Lines {

  const NL: char := '\n'

  /** `s.split("\n")`: never empty; an empty string yields `[""]` and a
      trailing newline yields a trailing empty line. */
  function Split(s: string): (lines: seq<string>)
    ensures |lines| >= 1
    ensures forall i :: 0 <= i < |lines| ==> NL !in lines[i]
    decreases |s|
  {
    if |s| == 0 then [""]
    else
      var rest := Split(s[1..]);
      if s[0] == NL then [""] + rest
      else [[s[0]] + rest[0]] + rest[1..]
  }

  /** `"\n".join(lines)`. */
  function Join(lines: seq<string>): string
    decreases |lines|
  {
    if |lines| == 0 then ""
    else if |lines| == 1 then lines[0]
    else lines[0] + [NL] + Join(lines[1..])
  }

  /** The text before the first newline (all of `s` if it has none). */
  function FirstLine(s: string): string
    decreases |s|
  {
    if |s| == 0 || s[0] == NL then "" else [s[0]] + FirstLine(s[1..])
  }

  /** The text after the first newline (empty if `s` has none). */
  function AfterFirstLine(s: string): string
    decreases |s|
  {
    if |s| == 0 then "" else if s[0] == NL then s[1..] else AfterFirstLine(s[1..])
  }

  /** The text after the last newline (all of `s` if it has none). */
  function LastLine(s: string): string
    decreases |s|
  {
    if |s| == 0 || s[|s| - 1] == NL then ""
    else LastLine(s[..|s| - 1]) + [s[|s| - 1]]
  }

  /** The text before the last newline (empty if `s` has none). */
  function BeforeLastLine(s: string): string
    decreases |s|
  {
    if |s| == 0 then ""
    else if s[|s| - 1] == NL then s[..|s| - 1]
    else BeforeLastLine(s[..|s| - 1])
  }

  /** `s` is a contiguous piece of `t`. */
  ghost predicate IsInfix(s: string, t: string) {
    exists i, j :: 0 <= i <= j <= |t| && t[i..j] == s
  }

  // ---------------------------------------------------------------------
  // Split and Join are inverse to each other.

  /** Splitting around one separator splits each side independently. */
  lemma {:induction false} SplitAppend(a: string, b: string)
    ensures Split(a + [NL] + b) == Split(a) + Split(b)
    decreases |a|
  {
    if |a| == 0 {
      assert a + [NL] + b == [NL] + b;
      assert ([NL] + b)[1..] == b;
    } else {
      var s := a + [NL] + b;
      assert s[0] == a[0];
      assert s[1..] == a[1..] + [NL] + b;
      SplitAppend(a[1..], b);
    }
  }

  /** A string without newlines is a single line. */
  lemma {:induction false} SplitNoNewline(s: string)
    requires NL !in s
    ensures Split(s) == [s]
    decreases |s|
  {
    if |s| > 0 {
      assert NL !in s[1..] by {
        forall k | 0 <= k < |s[1..]| ensures s[1..][k] != NL {
          assert s[1..][k] == s[k + 1];
        }
      }
      SplitNoNewline(s[1..]);
      assert [s[0]] + s[1..] == s;
    }
  }

  /** Joining the lines of `s` gives back `s`. */
  lemma {:induction false} JoinSplit(s: string)
    ensures Join(Split(s)) == s
    decreases |s|
  {
    if |s| > 0 {
      var rest := Split(s[1..]);
      JoinSplit(s[1..]);
      if s[0] == NL {
        assert Split(s) == [""] + rest;
        assert ([""] + rest)[1..] == rest;
        assert Join(Split(s)) == "" + [NL] + Join(rest);
        assert [s[0]] + s[1..] == s;
      } else {
        var l := [[s[0]] + rest[0]] + rest[1..];
        assert Split(s) == l;
        if |rest| == 1 {
          assert Join(rest) == rest[0];
          assert Join(l) == [s[0]] + rest[0];
        } else {
          assert l[1..] == rest[1..];
          assert Join(rest) == rest[0] + [NL] + Join(rest[1..]);
          assert Join(l) == [s[0]] + rest[0] + [NL] + Join(rest[1..]);
        }
        assert [s[0]] + s[1..] == s;
      }
    }
  }

  /** Splitting the join of newline-free lines gives back those lines. */
  lemma {:induction false} SplitJoin(lines: seq<string>)
    requires |lines| >= 1
    requires forall i :: 0 <= i < |lines| ==> NL !in lines[i]
    ensures Split(Join(lines)) == lines
    decreases |lines|
  {
    if |lines| == 1 {
      SplitNoNewline(lines[0]);
    } else {
      SplitJoin(lines[1..]);
      SplitNoNewline(lines[0]);
      SplitAppend(lines[0], Join(lines[1..]));
      assert [lines[0]] + lines[1..] == lines;
    }
  }

  // ---------------------------------------------------------------------
  // The reference definitions agree with Split.

  /** A string with a newline is its first line, a newline, and the rest. */
  lemma {:induction false} FirstLineDecomposition(s: string)
    requires NL in s
    ensures s == FirstLine(s) + [NL] + AfterFirstLine(s)
    ensures NL !in FirstLine(s)
    decreases |s|
  {
    if s[0] != NL {
      assert NL in s[1..] by {
        var k :| 0 <= k < |s| && s[k] == NL;
        assert s[1..][k - 1] == NL;
      }
      FirstLineDecomposition(s[1..]);
      assert [s[0]] + s[1..] == s;
    } else {
      assert [NL] + s[1..] == s;
    }
  }

  /** A string with a newline is everything before its last line, a
      newline, and the last line. */
  lemma {:induction false} LastLineDecomposition(s: string)
    requires NL in s
    ensures s == BeforeLastLine(s) + [NL] + LastLine(s)
    ensures NL !in LastLine(s)
    decreases |s|
  {
    var n := |s|;
    if s[n - 1] != NL {
      var p := s[..n - 1];
      assert NL in p by {
        var k :| 0 <= k < n && s[k] == NL;
        assert p[k] == NL;
      }
      LastLineDecomposition(p);
      assert p + [s[n - 1]] == s;
    } else {
      assert s[..n - 1] + [NL] == s;
    }
  }

  /** Without a newline, the first line is the whole string. */
  lemma {:induction false} NoNewlineFirstLine(s: string)
    requires NL !in s
    ensures FirstLine(s) == s && AfterFirstLine(s) == ""
    decreases |s|
  {
    if |s| > 0 {
      var q := s[1..];
      assert NL !in q by {
        forall k | 0 <= k < |q| ensures q[k] != NL {
          assert q[k] == s[k + 1];
        }
      }
      NoNewlineFirstLine(q);
      assert [s[0]] + q == s;
    }
  }

  /** Without a newline, the last line is the whole string. */
  lemma {:induction false} NoNewlineLastLine(s: string)
    requires NL !in s
    ensures LastLine(s) == s && BeforeLastLine(s) == ""
    decreases |s|
  {
    if |s| > 0 {
      var n := |s|;
      var p := s[..n - 1];
      assert NL !in p by {
        forall k | 0 <= k < |p| ensures p[k] != NL {
          assert p[k] == s[k];
        }
      }
      NoNewlineLastLine(p);
      assert p + [s[n - 1]] == s;
    }
  }

  /** The lines of `s` are its first line followed by the lines of the rest. */
  lemma SplitHead(s: string)
    ensures Split(s)[0] == FirstLine(s)
    ensures NL in s ==> Split(s)[1..] == Split(AfterFirstLine(s))
    ensures NL !in s ==> Split(s) == [s]
  {
    if NL in s {
      FirstLineDecomposition(s);
      SplitAppend(FirstLine(s), AfterFirstLine(s));
      SplitNoNewline(FirstLine(s));
    } else {
      SplitNoNewline(s);
      NoNewlineFirstLine(s);
    }
  }

  /** The last of the lines of `s` is its last line, and joining the others
      gives back everything before it. */
  lemma SplitTail(s: string)
    ensures Split(s)[|Split(s)| - 1] == LastLine(s)
    ensures Join(Split(s)[..|Split(s)| - 1]) == BeforeLastLine(s)
  {
    if NL in s {
      var b, l := BeforeLastLine(s), LastLine(s);
      LastLineDecomposition(s);
      SplitAppend(b, l);
      SplitNoNewline(l);
      assert Split(s) == Split(b) + [l];
      assert Split(s)[..|Split(s)| - 1] == Split(b);
      JoinSplit(b);
    } else {
      SplitNoNewline(s);
      NoNewlineLastLine(s);
    }
  }

  /** Everything after the first line is a suffix of `s`, and everything
      before the last line is a prefix of `s`. */
  lemma {:induction false} AfterFirstLineIsSuffix(s: string)
    ensures |AfterFirstLine(s)| <= |s|
    ensures AfterFirstLine(s) == s[|s| - |AfterFirstLine(s)|..]
    ensures NL in s ==> |AfterFirstLine(s)| < |s|
    decreases |s|
  {
    if |s| > 0 && s[0] != NL {
      AfterFirstLineIsSuffix(s[1..]);
      assert s[1..][|s[1..]| - |AfterFirstLine(s[1..])|..] == s[|s| - |AfterFirstLine(s)|..];
    }
  }

  lemma {:induction false} BeforeLastLineIsPrefix(s: string)
    ensures |BeforeLastLine(s)| <= |s|
    ensures BeforeLastLine(s) == s[..|BeforeLastLine(s)|]
    decreases |s|
  {
    if |s| > 0 && s[|s| - 1] != NL {
      var p := s[..|s| - 1];
      BeforeLastLineIsPrefix(p);
      assert p[..|BeforeLastLine(p)|] == s[..|BeforeLastLine(s)|];
    }
  }
}
