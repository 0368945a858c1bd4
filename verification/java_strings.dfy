/**
 * The pieces of `java.lang.String` and `java.util.List` behaviour that the
 * importer relies on: `trim`, `split` with a one-character separator,
 * `replaceAll("\"\"", "\"")` and `List.indexOf`.
 */
module JavaStrings {
  import opened Wrappers

  /** `String.trim` strips every character whose code is at most U+0020. */
  predicate IsSpace(c: char) {
    c <= ' '
  }

  /** No leading and no trailing character that `trim` would strip. */
  predicate IsTrimmed(s: string) {
    |s| == 0 || (!IsSpace(s[0]) && !IsSpace(s[|s| - 1]))
  }

  /**
   * `String.trim`: leading and then trailing characters up to U+0020 are
   * stripped, leaving the longest inner slice that neither starts nor ends
   * with one.
   */
  function Trim(s: string): (r: string)
    ensures IsTrimmed(r)
    ensures |r| <= |s|
    ensures IsTrimmed(s) ==> r == s
    ensures |s| > 0 && !IsSpace(s[0]) ==> |r| > 0 && r[0] == s[0]
    ensures IsTrimOf(s, r)
    decreases |s|
  {
    if |s| > 0 && IsSpace(s[0]) then
      var r := Trim(s[1..]);
      var i, j :| StrippedSlice(s[1..], i, j) && r == s[1..][i..j];
      assert StrippedSlice(s, i + 1, j + 1) && r == s[i + 1..j + 1];
      r
    else if |s| > 0 && IsSpace(s[|s| - 1]) then
      var r := Trim(s[..|s| - 1]);
      var i, j :| StrippedSlice(s[..|s| - 1], i, j) && r == s[..|s| - 1][i..j];
      assert StrippedSlice(s, i, j) && r == s[i..j];
      r
    else
      assert StrippedSlice(s, 0, |s|) && s == s[0..|s|];
      s
  }

  /** `r` is a slice of `s` that strips only characters up to U+0020. */
  ghost predicate IsTrimOf(s: string, r: string) {
    exists i, j :: StrippedSlice(s, i, j) && r == s[i..j]
  }

  /** `s[i..j]` is `s` with only characters up to U+0020 removed at either end. */
  predicate StrippedSlice(s: string, i: int, j: int) {
    && 0 <= i <= j <= |s|
    && (forall k :: 0 <= k < i ==> IsSpace(s[k]))
    && (forall k :: j <= k < |s| ==> IsSpace(s[k]))
  }

  /** A character that `trim` keeps lies inside every stripped slice. */
  lemma NonSpaceInside(s: string, i: int, j: int, k: int)
    requires StrippedSlice(s, i, j)
    requires 0 <= k < |s| && !IsSpace(s[k])
    ensures i <= k < j
  {
  }

  /**
   * `trim` is determined by what it promises: any slice that strips only
   * spaces and neither starts nor ends with one is the trimmed text.
   */
  lemma TrimUnique(s: string, i: int, j: int)
    requires StrippedSlice(s, i, j) && IsTrimmed(s[i..j])
    ensures s[i..j] == Trim(s)
  {
    var r := Trim(s);
    var i', j' :| StrippedSlice(s, i', j') && r == s[i'..j'];
    if i' < j' {
      assert s[i'] == r[0] && s[j' - 1] == r[j' - i' - 1];
      NonSpaceInside(s, i, j, i');
      NonSpaceInside(s, i, j, j' - 1);
    }
    if i < j {
      assert s[i] == s[i..j][0] && s[j - 1] == s[i..j][j - i - 1];
      NonSpaceInside(s, i', j', i);
      NonSpaceInside(s, i', j', j - 1);
    }
  }

  /** Number of occurrences of `c` in `s`. */
  function Count(s: string, c: char): nat {
    if |s| == 0 then 0 else (if s[0] == c then 1 else 0) + Count(s[1..], c)
  }

  lemma {:induction false} CountAppend(a: string, b: string, c: char)
    ensures Count(a + b, c) == Count(a, c) + Count(b, c)
  {
    if |a| == 0 {
      assert a + b == b;
    } else {
      assert (a + b)[1..] == a[1..] + b;
      CountAppend(a[1..], b, c);
    }
  }

  lemma {:induction false} CountAbsent(s: string, c: char)
    requires c !in s
    ensures Count(s, c) == 0
  {
    if |s| > 0 {
      assert s[0] != c;
      assert forall k :: 0 <= k < |s| - 1 ==> s[1..][k] == s[k + 1];
      CountAbsent(s[1..], c);
    }
  }

  /** Index of the first `c` in `s`. */
  function FirstIndex(s: string, c: char): (k: nat)
    requires c in s
    ensures k < |s| && s[k] == c && c !in s[..k]
  {
    if s[0] == c then 0
    else
      assert c in s[1..] by {
        var j :| 0 <= j < |s| && s[j] == c;
        assert s[1..][j - 1] == c;
      }
      var k := 1 + FirstIndex(s[1..], c);
      assert s[..k] == [s[0]] + s[1..][..k - 1];
      k
  }

  /** The pieces joined back with `sep` between neighbours (Python's `sep.join`). */
  function Join(pieces: seq<string>, sep: char): string {
    if |pieces| == 0 then ""
    else if |pieces| == 1 then pieces[0]
    else pieces[0] + [sep] + Join(pieces[1..], sep)
  }

  /**
   * Every piece of `s` between separators, leading, inner and trailing empty
   * pieces included: the split that keeps all of them.
   */
  function SplitAll(s: string, sep: char): (r: seq<string>)
    ensures |r| == Count(s, sep) + 1
    ensures forall k :: 0 <= k < |r| ==> sep !in r[k]
    decreases |s|
  {
    if sep !in s then
      CountAbsent(s, sep);
      [s]
    else
      var k := FirstIndex(s, sep);
      var rest := SplitAll(s[k + 1..], sep);
      assert s == s[..k] + [sep] + s[k + 1..];
      CountAppend(s[..k] + [sep], s[k + 1..], sep);
      CountAppend(s[..k], [sep], sep);
      CountAbsent(s[..k], sep);
      [s[..k]] + rest
  }

  /** The first `c` is at `j` when `s[j]` is `c` and no earlier character is. */
  lemma {:induction false} FirstIndexAt(s: string, c: char, j: nat)
    requires j < |s| && s[j] == c
    requires forall i :: 0 <= i < j ==> s[i] != c
    ensures FirstIndex(s, c) == j
  {
    if s[0] != c {
      assert forall i :: 0 <= i < j - 1 ==> s[1..][i] == s[i + 1];
      FirstIndexAt(s[1..], c, j - 1);
    }
  }

  /** Unfolding of `SplitAll` at a separator that is the first one. */
  lemma SplitAllAtFirst(a: string, b: string, sep: char)
    requires sep !in a
    ensures SplitAll(a + [sep] + b, sep) == [a] + SplitAll(b, sep)
  {
    var s := a + [sep] + b;
    assert s[|a|] == sep;
    assert forall i :: 0 <= i < |a| ==> s[i] == a[i];
    FirstIndexAt(s, sep, |a|);
    assert s[..|a|] == a;
    assert s[|a| + 1..] == b;
  }

  /** Splitting at a separator splits the two sides independently. */
  lemma {:induction false} SplitAllAppend(a: string, b: string, sep: char)
    ensures SplitAll(a + [sep] + b, sep) == SplitAll(a, sep) + SplitAll(b, sep)
    decreases |a|
  {
    if sep !in a {
      SplitAllAtFirst(a, b, sep);
    } else {
      var j := FirstIndex(a, sep);
      var head, rest := a[..j], a[j + 1..];
      calc {
        SplitAll(a + [sep] + b, sep);
        { assert a + [sep] + b == head + [sep] + (rest + [sep] + b); }
        SplitAll(head + [sep] + (rest + [sep] + b), sep);
        { SplitAllAtFirst(head, rest + [sep] + b, sep); }
        [head] + SplitAll(rest + [sep] + b, sep);
        { SplitAllAppend(rest, b, sep); }
        [head] + (SplitAll(rest, sep) + SplitAll(b, sep));
        ([head] + SplitAll(rest, sep)) + SplitAll(b, sep);
        { assert a == head + [sep] + rest;
          SplitAllAtFirst(head, rest, sep); }
        SplitAll(a, sep) + SplitAll(b, sep);
      }
    }
  }

  /** A text that does not end in the separator does not end in an empty piece. */
  lemma {:induction false} LastPieceNotEmpty(s: string, sep: char)
    requires |s| > 0 && s[|s| - 1] != sep
    ensures SplitAll(s, sep)[|SplitAll(s, sep)| - 1] != ""
    decreases |s|
  {
    if sep !in s {
      assert SplitAll(s, sep) == [s];
    } else {
      var k := FirstIndex(s, sep);
      var b := s[k + 1..];
      assert b[|b| - 1] == s[|s| - 1];
      LastPieceNotEmpty(b, sep);
      var pieces := SplitAll(b, sep);
      assert SplitAll(s, sep) == [s[..k]] + pieces;
      assert SplitAll(s, sep)[|SplitAll(s, sep)| - 1] == pieces[|pieces| - 1];
    }
  }

  /** Joining the pieces of a split gives back the string. */
  lemma {:induction false} JoinSplitAll(s: string, sep: char)
    ensures Join(SplitAll(s, sep), sep) == s
    decreases |s|
  {
    if sep in s {
      var k := FirstIndex(s, sep);
      var rest := s[k + 1..];
      JoinSplitAll(rest, sep);
      assert s == s[..k] + [sep] + rest;
    }
  }

  /** A join of separator-free pieces splits back into exactly those pieces. */
  lemma {:induction false} SplitAllJoin(pieces: seq<string>, sep: char)
    requires |pieces| > 0
    requires forall k :: 0 <= k < |pieces| ==> sep !in pieces[k]
    ensures SplitAll(Join(pieces, sep), sep) == pieces
  {
    if |pieces| == 1 {
      assert sep !in pieces[0];
    } else {
      var rest := pieces[1..];
      calc {
        SplitAll(Join(pieces, sep), sep);
        SplitAll(pieces[0] + [sep] + Join(rest, sep), sep);
        { SplitAllAppend(pieces[0], Join(rest, sep), sep); }
        SplitAll(pieces[0], sep) + SplitAll(Join(rest, sep), sep);
        { assert sep !in pieces[0];
          SplitAllJoin(rest, sep); }
        [pieces[0]] + rest;
      }
      assert [pieces[0]] + rest == pieces;
    }
  }

  /** Drops the empty strings at the end, as `String.split` does with limit 0. */
  function DropTrailingEmpty(xs: seq<string>): (r: seq<string>)
    ensures |r| <= |xs| && r == xs[..|r|]
    ensures |r| == 0 || r[|r| - 1] != ""
    ensures forall k :: |r| <= k < |xs| ==> xs[k] == ""
  {
    if |xs| > 0 && xs[|xs| - 1] == "" then DropTrailingEmpty(xs[..|xs| - 1]) else xs
  }

  /**
   * Java's `s.split(String.valueOf(sep))` for a separator that is not a
   * regular-expression metacharacter: the whole string when `sep` does not
   * occur (so "" gives [""]), otherwise every piece with the trailing empty
   * ones removed.
   */
  function JavaSplit(s: string, sep: char): (r: seq<string>)
    ensures sep !in s ==> r == [s]
    ensures sep in s ==> |r| == 0 || r[|r| - 1] != ""
    ensures sep in s ==> |r| <= |SplitAll(s, sep)| && r == SplitAll(s, sep)[..|r|]
    ensures sep in s ==> forall k :: |r| <= k < |SplitAll(s, sep)| ==> SplitAll(s, sep)[k] == ""
    ensures forall k :: 0 <= k < |r| ==> sep !in r[k]
  {
    if sep !in s then [s] else DropTrailingEmpty(SplitAll(s, sep))
  }

  /**
   * `s.split(String.valueOf(sep))[1]`: the second piece, or `None` where
   * Java throws `ArrayIndexOutOfBoundsException` because the split has
   * fewer than two pieces.
   */
  function SecondPiece(s: string, sep: char): (r: Option<string>)
    ensures r.Some? <==> |JavaSplit(s, sep)| >= 2
    ensures r.Some? ==> r.value == JavaSplit(s, sep)[1] && sep !in r.value
    ensures sep !in s ==> r.None?
  {
    var pieces := JavaSplit(s, sep);
    if |pieces| >= 2 then Some(pieces[1]) else None
  }

  /**
   * `s.replaceAll("\"\"", "\"")`: every doubled quote, matched left to right
   * without overlap, becomes a single quote.
   */
  function CollapseQuotes(s: string): (r: string)
    ensures |r| <= |s|
    ensures '"' !in s ==> r == s
  {
    if |s| >= 2 && s[0] == '"' && s[1] == '"' then "\"" + CollapseQuotes(s[2..])
    else if |s| == 0 then ""
    else
      assert '"' !in s ==> '"' !in s[1..] by {
        if '"' in s[1..] {
          var j :| 0 <= j < |s| - 1 && s[1..][j] == '"';
          assert s[j + 1] == '"';
        }
      }
      [s[0]] + CollapseQuotes(s[1..])
  }

  /** The RFC 4180 writer side: every quote doubled. */
  function DoubleQuotes(s: string): (r: string)
    ensures |r| == |s| + Count(s, '"')
  {
    if |s| == 0 then "" else (if s[0] == '"' then "\"\"" else [s[0]]) + DoubleQuotes(s[1..])
  }

  /** Collapsing undoes doubling. */
  lemma {:induction false} CollapseDoubled(s: string)
    ensures CollapseQuotes(DoubleQuotes(s)) == s
  {
    if |s| > 0 {
      CollapseDoubled(s[1..]);
      var d := DoubleQuotes(s);
      if s[0] == '"' {
        assert d == "\"\"" + DoubleQuotes(s[1..]);
        assert d[2..] == DoubleQuotes(s[1..]);
      } else {
        assert d == [s[0]] + DoubleQuotes(s[1..]);
        assert d[1..] == DoubleQuotes(s[1..]);
      }
    }
  }

  /** `List.indexOf`: the first position holding `x`, or -1 when there is none. */
  function IndexOf(xs: seq<string>, x: string): (r: int)
    ensures -1 <= r < |xs|
    ensures r == -1 <==> x !in xs
    ensures r >= 0 ==> xs[r] == x && x !in xs[..r]
  {
    if |xs| == 0 then -1
    else if xs[0] == x then 0
    else
      var k := IndexOf(xs[1..], x);
      assert x in xs ==> x in xs[1..] by {
        if x in xs {
          var j :| 0 <= j < |xs| && xs[j] == x;
          assert xs[1..][j - 1] == x;
        }
      }
      if k == -1 then -1
      else
        assert xs[..k + 1] == [xs[0]] + xs[1..][..k];
        k + 1
  }

  /** ASCII `A`..`Z` to lower case; every other character unchanged. */
  function LowerChar(c: char): char {
    if 'A' <= c <= 'Z' then (c as int - 'A' as int + 'a' as int) as char else c
  }

  /** `String.toLowerCase`, restricted to the ASCII letters. */
  function ToLower(s: string): (r: string)
    ensures |r| == |s|
    ensures forall k :: 0 <= k < |s| ==> r[k] == LowerChar(s[k])
  {
    if |s| == 0 then "" else [LowerChar(s[0])] + ToLower(s[1..])
  }
}
