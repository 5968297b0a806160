/**
 * `_clean` (main.py): remove markup tags, collapse whitespace, strip, and cap
 * the length at 400 characters.
 */
module TextClean {
  import opened PyStrings

  const MaxSummaryLength: nat := 400
  const Ellipsis: string := "..."

  /** Index of the first `>` in `t`, or `|t|` when there is none. */
  function TagEnd(t: string): (k: nat)
    ensures k <= |t|
    ensures forall m | 0 <= m < k :: t[m] != '>'
    ensures k < |t| ==> t[k] == '>'
  {
    if t == [] then 0 else if t[0] == '>' then 0 else 1 + TagEnd(t[1..])
  }

  /**
   * Whether the regular expression `<[^>]+>` matches at the start of `s`: a
   * `<`, at least one character other than `>`, then a `>`. As `[^>]+` cannot
   * run past a `>`, the match (if any) ends at the first `>` after the `<`.
   */
  predicate TagAtStart(s: string) {
    s != [] && s[0] == '<' && 0 < TagEnd(s[1..]) < |s| - 1
  }

  /** Length of the tag that starts `s`. */
  function TagLength(s: string): (n: nat)
    requires TagAtStart(s)
    ensures 3 <= n <= |s| && s[n - 1] == '>'
  {
    TagEnd(s[1..]) + 2
  }

  /** No match of `<[^>]+>` starts anywhere in `s`. */
  ghost predicate TagFree(s: string) {
    forall i | 0 <= i < |s| :: !TagAtStart(s[i..])
  }

  /** `re.sub(r"<[^>]+>", " ", s)`: scan left to right, each match becomes one space. */
  function StripTags(s: string): (r: string)
    ensures |r| <= |s|
    decreases |s|
  {
    if s == [] then []
    else if TagAtStart(s) then " " + StripTags(s[TagLength(s)..])
    else [s[0]] + StripTags(s[1..])
  }

  lemma {:induction false} StripTagsAddsNoClose(s: string)
    requires '>' !in s
    ensures '>' !in StripTags(s)
    decreases |s|
  {
    if s != [] {
      assert !TagAtStart(s) by {
        if s[0] == '<' {
          assert '>' !in s[1..];
        }
      }
      StripTagsAddsNoClose(s[1..]);
    }
  }

  lemma TagFreeCons(c: char, t: string)
    requires TagFree(t) && !TagAtStart([c] + t)
    ensures TagFree([c] + t)
  {
    var s := [c] + t;
    forall i | 0 <= i < |s| ensures !TagAtStart(s[i..]) {
      if i > 0 {
        assert s[i..] == t[i - 1..];
      }
    }
  }

  /** No tag survives: the output of the substitution contains no match of `<[^>]+>`. */
  lemma {:induction false} StripTagsTagFree(s: string)
    ensures TagFree(StripTags(s))
    decreases |s|
  {
    if s == [] {
    } else if TagAtStart(s) {
      StripTagsTagFree(s[TagLength(s)..]);
      TagFreeCons(' ', StripTags(s[TagLength(s)..]));
    } else {
      var rest := StripTags(s[1..]);
      StripTagsTagFree(s[1..]);
      assert !TagAtStart([s[0]] + rest) by {
        if s[0] == '<' {
          var t := s[1..];
          if t != [] && t[0] == '>' {
            assert !TagAtStart(t);
            assert rest == [t[0]] + StripTags(t[1..]);
            assert TagEnd(rest) == 0;
          } else {
            assert TagEnd(t) == |t|;
            assert '>' !in t;
            StripTagsAddsNoClose(t);
            assert TagEnd(rest) == |rest|;
          }
        }
      }
      TagFreeCons(s[0], rest);
    }
  }

  /** Text without tags passes the substitution unchanged. */
  lemma {:induction false} StripTagsKeepsTagFree(s: string)
    requires TagFree(s)
    ensures StripTags(s) == s
    decreases |s|
  {
    if s != [] {
      assert !TagAtStart(s[0..]);
      assert s[0..] == s;
      assert TagFree(s[1..]) by {
        forall i | 0 <= i < |s[1..]| ensures !TagAtStart(s[1..][i..]) {
          assert s[1..][i..] == s[i + 1..];
        }
      }
      StripTagsKeepsTagFree(s[1..]);
    }
  }

  /** The substitution is idempotent, and its fixed points are exactly the tag-free strings. */
  lemma StripTagsFixedPoints(s: string)
    ensures StripTags(s) == s <==> TagFree(s)
    ensures StripTags(StripTags(s)) == StripTags(s)
  {
    StripTagsTagFree(s);
    StripTagsKeepsTagFree(StripTags(s));
    if TagFree(s) {
      StripTagsKeepsTagFree(s);
    }
  }

  /** A tag starts `s` exactly when `s` is `<`, a character other than `>`, and later a `>`. */
  lemma TagAtStartChars(s: string)
    ensures TagAtStart(s) <==> |s| >= 2 && s[0] == '<' && s[1] != '>' && '>' in s[2..]
  {
    if |s| >= 2 && s[0] == '<' {
      var t := s[1..];
      var k := TagEnd(t);
      assert t[1..] == s[2..];
      if '>' in s[2..] && s[1] != '>' {
        var m :| 0 <= m < |s[2..]| && s[2..][m] == '>';
        assert t[m + 1] == '>';
      }
      if 0 < k < |t| {
        assert t[k] == s[2..][k - 1];
      }
    }
  }

  /** A tag at the start of a prefix of `q` is a tag at the start of `q`. */
  lemma TagAtStartPrefix(p: string, q: string)
    requires p <= q
    ensures TagAtStart(p) ==> TagAtStart(q)
  {
    TagAtStartChars(p);
    TagAtStartChars(q);
    if |p| >= 2 {
      assert q[2..] == p[2..] + q[|p|..];
    }
  }

  /** Text without `<` or `>` after `p` starts no tag that `p` does not start. */
  lemma TagAtStartPlainTail(p: string, y: string)
    requires '<' !in y && '>' !in y
    ensures TagAtStart(p + y) ==> TagAtStart(p)
  {
    TagAtStartChars(p + y);
    TagAtStartChars(p);
    if |p| >= 2 {
      assert (p + y)[2..] == p[2..] + y;
    } else if |p| == 1 && y != [] {
      assert (p + y)[2..] == y[1..];
    } else if p == [] {
      assert p + y == y;
    }
  }

  /** Every slice of tag-free text is tag-free. */
  lemma TagFreeSlice(s: string, lo: nat, hi: nat)
    requires lo <= hi <= |s| && TagFree(s)
    ensures TagFree(s[lo..hi])
  {
    var r := s[lo..hi];
    forall i | 0 <= i < |r| ensures !TagAtStart(r[i..]) {
      assert !TagAtStart(s[lo + i..]);
      TagAtStartPrefix(r[i..], s[lo + i..]);
    }
  }

  /** Text without `<` or `>` after tag-free text keeps it tag-free. */
  lemma TagFreeAppendPlain(x: string, y: string)
    requires TagFree(x) && '<' !in y && '>' !in y
    ensures TagFree(x + y)
  {
    var s := x + y;
    forall i | 0 <= i < |s| ensures !TagAtStart(s[i..]) {
      if i < |x| {
        assert !TagAtStart(x[i..]);
        assert s[i..] == x[i..] + y;
        TagAtStartPlainTail(x[i..], y);
      } else {
        assert s[i] == y[i - |x|];
      }
    }
  }

  /** A character that is not whitespace occurs in `s` exactly when it occurs among its non-whitespace characters. */
  lemma {:induction false} NonSpacesMember(s: string, c: char)
    requires !IsSpace(c)
    ensures c in NonSpaces(s) <==> c in s
    decreases |s|
  {
    if s != [] {
      NonSpacesMember(s[1..], c);
      assert s == [s[0]] + s[1..];
    }
  }

  /** The collapse keeps tag-free text tag-free: it only shortens whitespace runs to one space. */
  lemma {:induction false} CollapseTagFree(s: string)
    requires TagFree(s)
    ensures TagFree(Collapse(s))
    decreases |s|
  {
    if s != [] {
      if IsSpace(s[0]) {
        var t := DropLeading(s);
        TagFreeSlice(s, |s| - |t|, |s|);
        CollapseTagFree(t);
        TagFreeCons(' ', Collapse(t));
      } else {
        var rest := Collapse(s[1..]);
        TagFreeSlice(s, 1, |s|);
        CollapseTagFree(s[1..]);
        assert !TagAtStart([s[0]] + rest) by {
          var c := [s[0]] + rest;
          TagAtStartChars(c);
          TagAtStartChars(s);
          assert !TagAtStart(s[0..]) && s[0..] == s;
          if s[0] == '<' && |s| >= 2 {
            PrintableNotSpace('>');
            if s[1] != '>' {
              assert '>' !in s[1..] by {
                assert s[1..] == [s[1]] + s[2..];
              }
              NonSpacesMember(s[1..], '>');
              NonSpacesMember(rest, '>');
              assert '>' !in rest;
              assert c[2..] == rest[1..];
            } else {
              assert c[1] == '>';
            }
          }
        }
        TagFreeCons(s[0], rest);
      }
    }
  }

  /** Every whitespace character is the plain space. */
  ghost predicate PlainSpaces(s: string) {
    forall i | 0 <= i < |s| :: IsSpace(s[i]) ==> s[i] == ' '
  }

  /** No two whitespace characters are adjacent. */
  ghost predicate NoDoubleSpace(s: string) {
    forall i | 0 <= i < |s| - 1 :: !(IsSpace(s[i]) && IsSpace(s[i + 1]))
  }

  /** `re.sub(r"\s+", " ", s)`: every maximal run of whitespace becomes one space. */
  function Collapse(s: string): (r: string)
    ensures PlainSpaces(r) && NoDoubleSpace(r)
    ensures NonSpaces(r) == NonSpaces(s)
    ensures s != [] && !IsSpace(s[0]) ==> r != [] && r[0] == s[0]
    ensures s != [] && IsSpace(s[0]) ==> r != [] && r[0] == ' '
    ensures s == [] <==> r == []
    decreases |s|
  {
    if s == [] then []
    else if IsSpace(s[0]) then
      var t := DropLeading(s);
      DropLeadingNonSpaces(s);
      var rest := Collapse(t);
      ConsSpacing(' ', rest);
      NonSpacesAppend([' '], rest);
      [' '] + rest
    else
      var rest := Collapse(s[1..]);
      ConsSpacing(s[0], rest);
      NonSpacesAppend([s[0]], rest);
      assert s == [s[0]] + s[1..];
      NonSpacesAppend([s[0]], s[1..]);
      [s[0]] + rest
  }

  /** Putting `c` in front keeps the spacing invariants when a space is not followed by another. */
  lemma ConsSpacing(c: char, x: string)
    requires PlainSpaces(x) && NoDoubleSpace(x)
    requires IsSpace(c) ==> c == ' ' && (x == [] || !IsSpace(x[0]))
    ensures PlainSpaces([c] + x) && NoDoubleSpace([c] + x)
  {
    var r := [c] + x;
    assert forall i | 1 <= i < |r| :: r[i] == x[i - 1];
  }

  /** The collapse keeps the words apart: `re.sub(r"\s+", " ", s).split() == s.split()`. */
  lemma {:induction false} CollapseWords(s: string)
    ensures Words(Collapse(s)) == Words(s)
    decreases |s|
  {
    if s != [] {
      if IsSpace(s[0]) {
        var t := DropLeading(s);
        CollapseWords(t);
        WordsSpaceCons(' ', Collapse(t));
        WordsDropLeading(s);
      } else {
        var r := Collapse(s);
        CollapseWords(s[1..]);
        assert r[1..] == Collapse(s[1..]);
      }
    }
  }

  /** The collapse ends with whitespace exactly when its input does. */
  lemma {:induction false} CollapseLast(s: string)
    requires s != []
    ensures IsSpace(Collapse(s)[|Collapse(s)| - 1]) <==> IsSpace(s[|s| - 1])
    decreases |s|
  {
    var r := Collapse(s);
    if IsSpace(s[0]) {
      var t := DropLeading(s);
      if t != [] {
        CollapseLast(t);
        assert t[|t| - 1] == s[|s| - 1];
      }
    } else if |s| > 1 {
      CollapseLast(s[1..]);
    }
  }

  /** The text `_clean` works on before its length cap. */
  function Normalize(text: string): string {
    Strip(Collapse(StripTags(text)))
  }

  /** `_clean(text)`: normalized text, cut to 397 characters plus "..." when longer than 400. */
  function Clean(text: string): (r: string)
    ensures |r| <= MaxSummaryLength
    ensures text == [] ==> r == []
    ensures |Normalize(text)| <= MaxSummaryLength ==> r == Normalize(text)
    ensures |Normalize(text)| > MaxSummaryLength ==>
      r == Normalize(text)[..MaxSummaryLength - |Ellipsis|] + Ellipsis
  {
    if text == [] then []
    else
      var t := Normalize(text);
      if |t| > MaxSummaryLength then t[..MaxSummaryLength - |Ellipsis|] + Ellipsis else t
  }

  /** A slice keeps both spacing properties. */
  lemma SliceKeepsSpacing(s: string, lo: nat, hi: nat)
    requires lo <= hi <= |s|
    requires PlainSpaces(s) && NoDoubleSpace(s)
    ensures PlainSpaces(s[lo..hi]) && NoDoubleSpace(s[lo..hi])
  {
    var r := s[lo..hi];
    forall i | 0 <= i < |r| ensures IsSpace(r[i]) ==> r[i] == ' ' {
      assert r[i] == s[lo + i];
    }
    forall i | 0 <= i < |r| - 1 ensures !(IsSpace(r[i]) && IsSpace(r[i + 1])) {
      assert r[i] == s[lo + i] && r[i + 1] == s[lo + i + 1];
    }
  }

  lemma StripKeepsSpacing(s: string)
    requires PlainSpaces(s) && NoDoubleSpace(s)
    ensures PlainSpaces(Strip(s)) && NoDoubleSpace(Strip(s))
  {
    var t := DropLeading(s);
    SliceKeepsSpacing(s, |s| - |t|, |s|);
    var r := DropTrailing(t);
    SliceKeepsSpacing(t, 0, |r|);
  }

  /** The cleaned text before the cap contains no tag. */
  lemma NormalizeTagFree(text: string)
    ensures TagFree(Normalize(text))
  {
    var c := Collapse(StripTags(text));
    StripTagsTagFree(text);
    CollapseTagFree(StripTags(text));
    var lo, hi :| 0 <= lo <= hi <= |c| && TrimmedTo(c, Strip(c), lo, hi);
    TagFreeSlice(c, lo, hi);
  }

  /** Neither does the capped text. */
  lemma CleanTagFree(text: string)
    ensures TagFree(Clean(text))
  {
    var t := Normalize(text);
    NormalizeTagFree(text);
    if text != [] && |t| > MaxSummaryLength {
      var head := t[..MaxSummaryLength - |Ellipsis|];
      TagFreeSlice(t, 0, MaxSummaryLength - |Ellipsis|);
      TagFreeAppendPlain(head, Ellipsis);
      assert Clean(text) == head + Ellipsis;
    }
  }

  /**
   * Before the length cap, `_clean`'s text has no whitespace at either end,
   * no two whitespace characters in a row, only plain spaces as whitespace,
   * the same words as the tag-stripped input, and no tag; the capped text has
   * no tag either.
   */
  lemma NormalizeSpec(text: string)
    ensures NoEdgeSpace(Normalize(text))
    ensures PlainSpaces(Normalize(text)) && NoDoubleSpace(Normalize(text))
    ensures Words(Normalize(text)) == Words(StripTags(text))
    ensures NonSpaces(Normalize(text)) == NonSpaces(StripTags(text))
    ensures TagFree(Normalize(text)) && TagFree(Clean(text))
  {
    StripKeepsSpacing(Collapse(StripTags(text)));
    CollapseWords(StripTags(text));
    StripWords(Collapse(StripTags(text)));
    NormalizeTagFree(text);
    CleanTagFree(text);
  }
}
