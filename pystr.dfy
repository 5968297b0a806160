/**
 * The parts of Python's `str` semantics the service relies on: the whitespace
 * table, `str.strip()`, slicing `s[:n]` and the ordering `a < b`.
 */
module PyStrings {

  /**
   * Python's whitespace table (`str.isspace`; the same table is used by the
   * `\s` class of `re` on str patterns and by `str.strip()` with no argument).
   */
  predicate IsSpace(c: char) {
    InRanges(c as int, WhitespaceRanges)
  }

  /** The code-point ranges (inclusive) of that table. */
  const WhitespaceRanges: seq<(int, int)> := [
    (0x09, 0x0D), (0x1C, 0x20), (0x85, 0x85), (0xA0, 0xA0), (0x1680, 0x1680),
    (0x2000, 0x200A), (0x2028, 0x2029), (0x202F, 0x202F), (0x205F, 0x205F), (0x3000, 0x3000)
  ]

  /** ASCII and Unicode spaces and separators are in the whitespace table. */
  lemma WhitespaceTable()
    ensures IsSpace(' ') && IsSpace('\t') && IsSpace('\n') && IsSpace('\r')
    ensures IsSpace('\U{A0}') && IsSpace('\U{2028}') && IsSpace('\U{3000}') && IsSpace('\U{1F}')
  {
  }

  /** Letters and the byte-order mark are not. */
  lemma NotWhitespace()
    ensures !IsSpace('a') && !IsSpace('\U{FEFF}')
  {
    PrintableNotSpace('a');
    AboveTableNotSpace('\U{FEFF}');
  }

  /** Nor are the zero-width space and the Mongolian vowel separator U+180E. */
  lemma ZeroWidthNotWhitespace()
    ensures !IsSpace('\U{200B}') && !IsSpace('\U{180E}')
  {
    GapNotSpace('\U{200B}');
    GapNotSpace('\U{180E}');
  }

  /** Code points between U+1681 and U+1FFF, or between U+200B and U+2027, are not whitespace. */
  lemma GapNotSpace(c: char)
    requires 0x1681 <= c as int <= 0x1FFF || 0x200B <= c as int <= 0x2027
    ensures !IsSpace(c)
  {
    OutsideRanges(c as int, WhitespaceRanges);
  }

  lemma AboveTableNotSpace(c: char)
    requires c as int > 0x3000
    ensures !IsSpace(c)
  {
    OutsideRanges(c as int, WhitespaceRanges);
  }

  predicate InRanges(n: int, ranges: seq<(int, int)>) {
    ranges != [] && ((ranges[0].0 <= n <= ranges[0].1) || InRanges(n, ranges[1..]))
  }

  lemma {:induction false} OutsideRanges(n: int, ranges: seq<(int, int)>)
    requires forall k | 0 <= k < |ranges| :: !(ranges[k].0 <= n <= ranges[k].1)
    ensures !InRanges(n, ranges)
  {
    if ranges != [] {
      OutsideRanges(n, ranges[1..]);
    }
  }

  /** Printable ASCII other than the space character is not whitespace. */
  lemma PrintableNotSpace(c: char)
    requires 0x21 <= c as int <= 0x7E
    ensures !IsSpace(c)
  {
    OutsideRanges(c as int, WhitespaceRanges);
  }

  function Min(a: int, b: int): int {
    if a <= b then a else b
  }

  /** Python's `s[:n]` for `n >= 0`. */
  function Take<T>(s: seq<T>, n: nat): (r: seq<T>)
    ensures |r| == Min(n, |s|)
    ensures r == s[..|r|]
  {
    if n <= |s| then s[..n] else s
  }

  /** The non-whitespace characters of `s`, in order. */
  function NonSpaces(s: string): (r: string)
    ensures |r| <= |s|
  {
    if s == [] then []
    else (if IsSpace(s[0]) then [] else [s[0]]) + NonSpaces(s[1..])
  }

  lemma {:induction false} NonSpacesAppend(a: string, b: string)
    ensures NonSpaces(a + b) == NonSpaces(a) + NonSpaces(b)
  {
    if a == [] {
      assert a + b == b;
    } else {
      var head := if IsSpace(a[0]) then [] else [a[0]];
      assert (a + b)[0] == a[0];
      assert (a + b)[1..] == a[1..] + b;
      calc {
        NonSpaces(a + b);
      ==
        head + NonSpaces(a[1..] + b);
      == { NonSpacesAppend(a[1..], b); }
        head + (NonSpaces(a[1..]) + NonSpaces(b));
      ==
        (head + NonSpaces(a[1..])) + NonSpaces(b);
      }
    }
  }

  lemma {:induction false} NonSpacesOfSpaces(s: string)
    requires forall i | 0 <= i < |s| :: IsSpace(s[i])
    ensures NonSpaces(s) == []
  {
    if s != [] {
      NonSpacesOfSpaces(s[1..]);
    }
  }

  /** `s` with its leading whitespace removed (`str.lstrip()`). */
  function DropLeading(s: string): (r: string)
    ensures |r| <= |s| && r == s[|s| - |r|..]
    ensures r == [] || !IsSpace(r[0])
    ensures forall i | 0 <= i < |s| - |r| :: IsSpace(s[i])
  {
    if s != [] && IsSpace(s[0]) then
      var r := DropLeading(s[1..]);
      assert forall i | 1 <= i < |s| :: s[i] == s[1..][i - 1];
      r
    else s
  }

  /** `s` with its trailing whitespace removed (`str.rstrip()`). */
  function DropTrailing(s: string): (r: string)
    ensures |r| <= |s| && r == s[..|r|]
    ensures r == [] || !IsSpace(r[|r| - 1])
    ensures forall i | |r| <= i < |s| :: IsSpace(s[i])
  {
    if s != [] && IsSpace(s[|s| - 1]) then
      var r := DropTrailing(s[..|s| - 1]);
      assert forall i | 0 <= i < |s| - 1 :: s[i] == s[..|s| - 1][i];
      r
    else s
  }

  /** No whitespace at either end. */
  predicate NoEdgeSpace(s: string) {
    s == [] || (!IsSpace(s[0]) && !IsSpace(s[|s| - 1]))
  }

  /**
   * Python's `str.strip()`: `DropTrailing` of `DropLeading`, a slice of `s`
   * that neither starts nor ends with whitespace; nothing but whitespace is
   * removed.
   */
  function Strip(s: string): (r: string)
    ensures NoEdgeSpace(r)
    ensures NonSpaces(r) == NonSpaces(s)
    ensures exists a, b | 0 <= a <= b <= |s| :: TrimmedTo(s, r, a, b)
  {
    var t := DropLeading(s);
    DropLeadingNonSpaces(s);
    DropTrailingNonSpaces(t);
    var r := DropTrailing(t);
    assert r != [] ==> r[0] == t[0];
    TrimSlices(s, t, r);
    r
  }

  /** `r` is `s[a..b]`, and only whitespace lies outside `a..b`. */
  ghost predicate TrimmedTo(s: string, r: string, a: nat, b: nat)
    requires a <= b <= |s|
  {
    r == s[a..b] && (forall i | 0 <= i < a :: IsSpace(s[i])) && (forall i | b <= i < |s| :: IsSpace(s[i]))
  }

  /** A prefix `r` of a suffix `t` of `s`, with only whitespace cut off at each end, is trimmed from `s`. */
  lemma TrimSlices(s: string, t: string, r: string)
    requires |t| <= |s| && t == s[|s| - |t|..] && (forall i | 0 <= i < |s| - |t| :: IsSpace(s[i]))
    requires |r| <= |t| && r == t[..|r|] && (forall i | |r| <= i < |t| :: IsSpace(t[i]))
    ensures TrimmedTo(s, r, |s| - |t|, |s| - |t| + |r|)
  {
    var a := |s| - |t|;
    assert r == s[a..a + |r|];
    forall i | a + |r| <= i < |s| ensures IsSpace(s[i]) {
      assert s[i] == t[i - a];
    }
  }

  lemma {:induction false} DropLeadingNonSpaces(s: string)
    ensures NonSpaces(DropLeading(s)) == NonSpaces(s)
  {
    if s != [] && IsSpace(s[0]) {
      DropLeadingNonSpaces(s[1..]);
    }
  }

  lemma {:induction false} DropTrailingNonSpaces(s: string)
    ensures NonSpaces(DropTrailing(s)) == NonSpaces(s)
  {
    if s != [] && IsSpace(s[|s| - 1]) {
      var init := s[..|s| - 1];
      assert s == init + [s[|s| - 1]];
      NonSpacesAppend(init, [s[|s| - 1]]);
      DropTrailingNonSpaces(init);
    }
  }

  /** Leading whitespace of `a` is all that `lstrip` removes when `b` starts with a non-space. */
  lemma {:induction false} DropLeadingAppend(a: string, b: string)
    requires b != [] && !IsSpace(b[0])
    ensures DropLeading(a + b) == DropLeading(a) + b
  {
    if a == [] {
      assert a + b == b;
    } else {
      assert (a + b)[0] == a[0];
      if IsSpace(a[0]) {
        assert (a + b)[1..] == a[1..] + b;
        DropLeadingAppend(a[1..], b);
      }
    }
  }

  lemma DropTrailingAppend(a: string, b: string)
    requires b != [] && !IsSpace(b[|b| - 1])
    ensures DropTrailing(a + b) == a + b
  {
    assert (a + b)[|a + b| - 1] == b[|b| - 1];
  }

  /** `(a + b).strip()` only trims the front of `a` when `b` has no whitespace at its ends. */
  lemma StripAppend(a: string, b: string)
    requires b != [] && NoEdgeSpace(b)
    ensures Strip(a + b) == DropLeading(a) + b
  {
    DropLeadingAppend(a, b);
    DropTrailingAppend(DropLeading(a), b);
  }

  lemma StripIdentity(s: string)
    requires NoEdgeSpace(s)
    ensures Strip(s) == s
  {
  }

  /** A word of `str.split()`: a non-empty run of non-whitespace characters. */
  predicate IsWord(w: string) {
    w != [] && forall j | 0 <= j < |w| :: !IsSpace(w[j])
  }

  /** Python's `s.split()` with no argument: the maximal runs of non-whitespace characters, in order. */
  function Words(s: string): (r: seq<string>)
    ensures s != [] && !IsSpace(s[0]) ==> r != []
    ensures forall k | 0 <= k < |r| :: IsWord(r[k])
    decreases |s|
  {
    if s == [] then []
    else if IsSpace(s[0]) then Words(s[1..])
    else
      var rest := Words(s[1..]);
      if |s| > 1 && !IsSpace(s[1]) then [[s[0]] + rest[0]] + rest[1..] else [[s[0]]] + rest
  }

  lemma WordsSpaceCons(c: char, t: string)
    requires IsSpace(c)
    ensures Words([c] + t) == Words(t)
  {
    assert ([c] + t)[1..] == t;
  }

  /** Leading whitespace separates no words. */
  lemma {:induction false} WordsDropLeading(s: string)
    ensures Words(DropLeading(s)) == Words(s)
    decreases |s|
  {
    if s != [] && IsSpace(s[0]) {
      WordsDropLeading(s[1..]);
    }
  }

  lemma {:induction false} WordsOfSpaces(s: string)
    requires forall i | 0 <= i < |s| :: IsSpace(s[i])
    ensures Words(s) == []
    decreases |s|
  {
    if s != [] {
      WordsOfSpaces(s[1..]);
    }
  }

  /** Trailing whitespace separates no words. */
  lemma {:induction false} WordsTrailingSpaces(a: string, sp: string)
    requires forall i | 0 <= i < |sp| :: IsSpace(sp[i])
    ensures Words(a + sp) == Words(a)
    decreases |a|
  {
    if a == [] {
      assert a + sp == sp;
      WordsOfSpaces(sp);
    } else {
      assert (a + sp)[0] == a[0];
      assert (a + sp)[1..] == a[1..] + sp;
      WordsTrailingSpaces(a[1..], sp);
      if |a| == 1 && sp != [] {
        assert (a + sp)[1] == sp[0];
      } else if |a| > 1 {
        assert (a + sp)[1] == a[1];
      }
    }
  }

  /** A prefix followed by whitespace only: `t` splits into `r` and a run of whitespace. */
  lemma SplitTrailing(t: string, r: string)
    requires |r| <= |t| && r == t[..|r|] && (forall i | |r| <= i < |t| :: IsSpace(t[i]))
    ensures t == r + t[|r|..] && forall i | 0 <= i < |t[|r|..]| :: IsSpace(t[|r|..][i])
  {
    assert forall i | 0 <= i < |t[|r|..]| :: t[|r|..][i] == t[|r| + i];
  }

  lemma WordsDropTrailing(t: string)
    ensures Words(DropTrailing(t)) == Words(t)
  {
    var r := DropTrailing(t);
    SplitTrailing(t, r);
    WordsTrailingSpaces(r, t[|r|..]);
  }

  /** `s.strip().split() == s.split()` */
  lemma StripWords(s: string)
    ensures Words(Strip(s)) == Words(s)
  {
    assert Strip(s) == DropTrailing(DropLeading(s));
    WordsDropLeading(s);
    WordsDropTrailing(DropLeading(s));
  }

  /** Python's `a < b` on str: lexicographic by code point, a proper prefix first. */
  predicate StrLt(a: string, b: string) {
    if a == [] then b != []
    else if b == [] then false
    else a[0] < b[0] || (a[0] == b[0] && StrLt(a[1..], b[1..]))
  }

  lemma {:induction false} StrLtIrreflexive(a: string)
    ensures !StrLt(a, a)
  {
    if a != [] {
      StrLtIrreflexive(a[1..]);
    }
  }

  lemma {:induction false} StrLtTransitive(a: string, b: string, c: string)
    requires StrLt(a, b) && StrLt(b, c)
    ensures StrLt(a, c)
  {
    if a != [] && b != [] && c != [] && a[0] == b[0] == c[0] {
      StrLtTransitive(a[1..], b[1..], c[1..]);
    }
  }

  lemma {:induction false} StrLtTotal(a: string, b: string)
    requires a != b
    ensures StrLt(a, b) || StrLt(b, a)
  {
    if a != [] && b != [] && a[0] == b[0] {
      assert a == [a[0]] + a[1..] && b == [b[0]] + b[1..];
      StrLtTotal(a[1..], b[1..]);
    }
  }

  /** Comparing two strings whose first parts have equal length compares the first parts, then the rest. */
  lemma {:induction false} StrLtConcat(a1: string, a2: string, b1: string, b2: string)
    requires |a1| == |b1|
    ensures StrLt(a1 + a2, b1 + b2) <==> StrLt(a1, b1) || (a1 == b1 && StrLt(a2, b2))
  {
    if a1 == [] {
      assert a1 + a2 == a2 && b1 + b2 == b2;
    } else {
      assert (a1 + a2)[1..] == a1[1..] + a2;
      assert (b1 + b2)[1..] == b1[1..] + b2;
      StrLtConcat(a1[1..], a2, b1[1..], b2);
      if a1[0] == b1[0] {
        assert a1 == b1 <==> a1[1..] == b1[1..] by {
          assert a1 == [a1[0]] + a1[1..] && b1 == [b1[0]] + b1[1..];
        }
      }
    }
  }
}
