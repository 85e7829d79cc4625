/** What `generateUrlSlug` guarantees, for every input string: the alphabet of
    its output, the absence of `--`, which characters of the name survive, and
    that slugs are exactly its fixed points (so it is idempotent). */
module UrlSlugProperties {
  import opened UrlSlug

  /** The word characters of `s`, in order. */
  function Words(s: string): string {
    Filter(IsWordChar, s)
  }

  // ---------------------------------------------------------------------------
  // Helpers about Filter
  // ---------------------------------------------------------------------------

  lemma {:induction false} FilterAppend(p: char -> bool, a: string, b: string)
    ensures Filter(p, a + b) == Filter(p, a) + Filter(p, b)
    decreases |a|
  {
    if a == [] {
      assert a + b == b;
    } else {
      FilterAppend(p, a[1..], b);
      assert (a + b)[1..] == a[1..] + b;
    }
  }

  /** A string none of whose characters satisfies `p` leaves nothing behind. */
  lemma {:induction false} FilterNone(p: char -> bool, s: string)
    requires forall i :: 0 <= i < |s| ==> !p(s[i])
    ensures Filter(p, s) == []
    decreases |s|
  {
    if s != [] {
      FilterNone(p, s[1..]);
    }
  }

  lemma {:induction false} FilterIdentity(p: char -> bool, s: string)
    requires forall i :: 0 <= i < |s| ==> p(s[i])
    ensures Filter(p, s) == s
    decreases |s|
  {
    if s != [] {
      FilterIdentity(p, s[1..]);
      assert [s[0]] + s[1..] == s;
    }
  }

  // ---------------------------------------------------------------------------
  // Output alphabet
  // ---------------------------------------------------------------------------

  lemma {:induction false} ReplaceWhitespaceRunsNoUpper(s: string)
    requires NoUpper(s)
    ensures NoUpper(ReplaceWhitespaceRuns(s))
    decreases |s|
  {
    if s != [] {
      ReplaceWhitespaceRunsNoUpper(s[1..]);
    }
  }

  lemma {:induction false} FilterNoUpper(p: char -> bool, s: string)
    requires NoUpper(s)
    ensures NoUpper(Filter(p, s))
    decreases |s|
  {
    if s != [] {
      FilterNoUpper(p, s[1..]);
    }
  }

  lemma {:induction false} CollapseHyphensAlphabet(s: string)
    requires AllSlugChars(s)
    ensures AllSlugChars(CollapseHyphens(s))
    decreases |s|
  {
    if s != [] {
      CollapseHyphensAlphabet(s[1..]);
    }
  }

  /** Every character of the slug is a lower-case ASCII letter, a digit, `_`
      or `-`: no whitespace and no upper-case letter survives. */
  lemma SlugAlphabet(name: string)
    ensures AllSlugChars(GenerateUrlSlug(name))
  {
    var lowered := ToLower(name);
    var trimmed := Trim(lowered);
    var dashed := ReplaceWhitespaceRuns(trimmed);
    var kept := RemoveNonWord(dashed);
    TrimNoUpper(lowered);
    ReplaceWhitespaceRunsNoUpper(trimmed);
    FilterNoUpper(IsWordOrHyphen, dashed);
    LowerWordsAreSlugChars(kept);
    CollapseHyphensAlphabet(kept);
  }

  lemma TrimNoUpper(s: string)
    requires NoUpper(s)
    ensures NoUpper(Trim(s))
  {
    SliceNoUpper(s, |s| - |SkipWhile(IsWhitespace, s)|, |Trim(s)|);
  }

  lemma SliceNoUpper(s: string, k: nat, n: nat)
    requires NoUpper(s) && k + n <= |s|
    ensures NoUpper(s[k..k + n])
  {
    var t := s[k..k + n];
    forall i | 0 <= i < |t|
      ensures !IsUpper(t[i])
    {
      assert t[i] == s[k + i];
    }
  }

  lemma LowerWordsAreSlugChars(s: string)
    requires NoUpper(s)
    requires forall i :: 0 <= i < |s| ==> IsWordOrHyphen(s[i])
    ensures AllSlugChars(s)
  {
  }

  // ---------------------------------------------------------------------------
  // No adjacent hyphens
  // ---------------------------------------------------------------------------

  /** Step 4 leaves no two hyphens next to each other. */
  lemma {:induction false} CollapseNoDoubleHyphen(s: string)
    ensures NoDoubleHyphen(CollapseHyphens(s))
    decreases |s|
  {
    if s == [] {
    } else if |s| >= 2 && s[0] == '-' && s[1] == '-' {
      CollapseNoDoubleHyphen(s[1..]);
    } else {
      CollapseNoDoubleHyphen(s[1..]);
      var tail := CollapseHyphens(s[1..]);
      var r := [s[0]] + tail;
      forall i | 0 <= i < |r| - 1
        ensures !(r[i] == '-' && r[i + 1] == '-')
      {
        if i > 0 {
          assert r[i] == tail[i - 1] && r[i + 1] == tail[i];
        } else {
          assert r[1] == tail[0] == s[1];
        }
      }
    }
  }

  /** The slug never contains `--`. */
  lemma SlugNoDoubleHyphen(name: string)
    ensures NoDoubleHyphen(GenerateUrlSlug(name))
  {
    CollapseNoDoubleHyphen(RemoveNonWord(ReplaceWhitespaceRuns(Trim(ToLower(name)))));
  }

  /** The slug is well formed. */
  lemma SlugIsSlug(name: string)
    ensures IsSlug(GenerateUrlSlug(name))
  {
    SlugAlphabet(name);
    SlugNoDoubleHyphen(name);
  }

  // ---------------------------------------------------------------------------
  // Which characters survive
  // ---------------------------------------------------------------------------

  lemma {:induction false} TrimStartKeepsWords(s: string)
    ensures Words(SkipWhile(IsWhitespace, s)) == Words(s)
    decreases |s|
  {
    if s != [] && IsWhitespace(s[0]) {
      TrimStartKeepsWords(s[1..]);
      assert SkipWhile(IsWhitespace, s) == SkipWhile(IsWhitespace, s[1..]);
      assert !IsWordChar(s[0]);
    }
  }

  lemma TrimEndKeepsWords(s: string)
    ensures Words(TrimEnd(s)) == Words(s)
  {
    var r := TrimEnd(s);
    assert s == r + s[|r|..];
    FilterAppend(IsWordChar, r, s[|r|..]);
    FilterNone(IsWordChar, s[|r|..]);
  }

  lemma {:induction false} ReplaceWhitespaceRunsKeepsWords(s: string)
    ensures Words(ReplaceWhitespaceRuns(s)) == Words(s)
    decreases |s|
  {
    if s != [] {
      ReplaceWhitespaceRunsKeepsWords(s[1..]);
      if IsWhitespace(s[0]) && |s| >= 2 && IsWhitespace(s[1]) {
      } else if IsWhitespace(s[0]) {
        FilterAppend(IsWordChar, "-", ReplaceWhitespaceRuns(s[1..]));
      } else {
        FilterAppend(IsWordChar, [s[0]], ReplaceWhitespaceRuns(s[1..]));
      }
    }
  }

  /** Step 3 deletes a character outside `[A-Za-z0-9_-]` without leaving
      anything in its place. */
  lemma RemoveNonWordDeletes(a: string, c: char, b: string)
    requires !IsWordOrHyphen(c)
    ensures RemoveNonWord(a + [c] + b) == RemoveNonWord(a) + RemoveNonWord(b)
  {
    FilterAppend(IsWordOrHyphen, a + [c], b);
    FilterAppend(IsWordOrHyphen, a, [c]);
    FilterNone(IsWordOrHyphen, [c]);
  }

  /** Step 3 keeps every word character and every `-`, in its place. */
  lemma RemoveNonWordKeeps(a: string, c: char, b: string)
    requires IsWordOrHyphen(c)
    ensures RemoveNonWord(a + [c] + b) == RemoveNonWord(a) + [c] + RemoveNonWord(b)
  {
    FilterAppend(IsWordOrHyphen, a + [c], b);
    FilterAppend(IsWordOrHyphen, a, [c]);
    FilterIdentity(IsWordOrHyphen, [c]);
  }

  lemma {:induction false} RemoveNonWordKeepsWords(s: string)
    ensures Words(RemoveNonWord(s)) == Words(s)
    decreases |s|
  {
    if s != [] {
      RemoveNonWordKeepsWords(s[1..]);
      var head := if IsWordOrHyphen(s[0]) then [s[0]] else [];
      FilterAppend(IsWordChar, head, RemoveNonWord(s[1..]));
    }
  }

  lemma {:induction false} CollapseHyphensKeepsWords(s: string)
    ensures Words(CollapseHyphens(s)) == Words(s)
    decreases |s|
  {
    if s != [] {
      CollapseHyphensKeepsWords(s[1..]);
      if !(|s| >= 2 && s[0] == '-' && s[1] == '-') {
        FilterAppend(IsWordChar, [s[0]], CollapseHyphens(s[1..]));
      }
    }
  }

  lemma {:induction false} ToLowerCommutesWithWords(s: string)
    ensures Words(ToLower(s)) == ToLower(Words(s))
    decreases |s|
  {
    if s != [] {
      ToLowerCommutesWithWords(s[1..]);
      var head := if IsWordChar(s[0]) then [s[0]] else [];
      assert Words(s) == head + Words(s[1..]);
      ToLowerAppend(head, Words(s[1..]));
      HeadTail(s);
      ToLowerAppend([s[0]], s[1..]);
      assert ToLower([s[0]]) == [Lower(s[0])];
      FilterAppend(IsWordChar, [Lower(s[0])], ToLower(s[1..]));
    }
  }

  lemma {:induction false} ToLowerAppend(a: string, b: string)
    ensures ToLower(a + b) == ToLower(a) + ToLower(b)
  {
    assert |ToLower(a + b)| == |ToLower(a) + ToLower(b)|;
    forall i | 0 <= i < |a + b|
      ensures ToLower(a + b)[i] == (ToLower(a) + ToLower(b))[i]
    {
      if i >= |a| {
        assert (a + b)[i] == b[i - |a|];
      }
    }
  }

  lemma {:induction false} HyphenFreePartIsWords(s: string)
    requires forall i :: 0 <= i < |s| ==> IsWordOrHyphen(s[i])
    ensures Filter(IsNotHyphen, s) == Words(s)
    decreases |s|
  {
    if s != [] {
      HyphenFreePartIsWords(s[1..]);
    }
  }

  /** Deleting every `-` from the slug leaves exactly the word characters of
      the lower-cased name, in their original order; equivalently, the word
      characters of the name, lower-cased. */
  lemma SlugKeepsWordChars(name: string)
    ensures Filter(IsNotHyphen, GenerateUrlSlug(name)) == Words(ToLower(name))
    ensures Filter(IsNotHyphen, GenerateUrlSlug(name)) == ToLower(Words(name))
  {
    var lowered := ToLower(name);
    var started := SkipWhile(IsWhitespace, lowered);
    var trimmed := TrimEnd(started);
    var dashed := ReplaceWhitespaceRuns(trimmed);
    var kept := RemoveNonWord(dashed);
    var slug := CollapseHyphens(kept);
    TrimStartKeepsWords(lowered);
    TrimEndKeepsWords(started);
    ReplaceWhitespaceRunsKeepsWords(trimmed);
    RemoveNonWordKeepsWords(dashed);
    CollapseHyphensKeepsWords(kept);
    SlugAlphabet(name);
    HyphenFreePartIsWords(slug);
    ToLowerCommutesWithWords(name);
  }

  // ---------------------------------------------------------------------------
  // Whitespace runs and the ends of a name
  // ---------------------------------------------------------------------------

  /** A run of whitespace after a whitespace-free part becomes a single
      hyphen, whether or not anything follows it. */
  lemma {:induction false} RunDashed(a: string, w: string, b: string)
    requires forall i :: 0 <= i < |a| ==> !IsWhitespace(a[i])
    requires w != [] && forall i :: 0 <= i < |w| ==> IsWhitespace(w[i])
    requires forall i :: 0 <= i < |b| ==> !IsWhitespace(b[i])
    ensures ReplaceWhitespaceRuns(a + w + b) == a + "-" + b
    decreases |a| + |w|
  {
    var s := a + w + b;
    if a != [] {
      assert s[0] == a[0] && s[1..] == a[1..] + w + b;
      assert forall i :: 0 <= i < |a[1..]| ==> a[1..][i] == a[i + 1];
      RunDashed(a[1..], w, b);
      assert a + "-" + b == [a[0]] + (a[1..] + "-" + b);
    } else if |w| > 1 {
      assert s[0] == w[0] && s[1] == w[1] && s[1..] == [] + w[1..] + b;
      assert forall i :: 0 <= i < |w[1..]| ==> w[1..][i] == w[i + 1];
      RunDashed([], w[1..], b);
    } else {
      assert s[0] == w[0] && s[1..] == b;
      if b != [] {
        assert s[1] == b[0];
      }
      ReplaceWhitespaceRunsIdentity(b);
    }
  }

  /** Trimming removes exactly the whitespace around a core that neither
      starts nor ends with whitespace. */
  lemma TrimSurrounded(a: string, c: string, b: string)
    requires forall i :: 0 <= i < |a| ==> IsWhitespace(a[i])
    requires c != [] && !IsWhitespace(c[0]) && !IsWhitespace(c[|c| - 1])
    requires forall i :: 0 <= i < |b| ==> IsWhitespace(b[i])
    ensures Trim(a + c + b) == c
  {
    var s := a + c + b;
    var r := Trim(s);
    var k := |s| - |SkipWhile(IsWhitespace, s)|;
    assert s[|a|] == c[0] && s[|a| + |c| - 1] == c[|c| - 1];
    assert r != [];
    assert r[0] == s[k] && r[|r| - 1] == s[k + |r| - 1];
    assert k == |a| && |r| == |c|;
    assert s[|a|..|a| + |c|] == c;
  }


  /** Step 2 keeps a last character that is not whitespace as the last character. */
  lemma {:induction false} DashedKeepsLast(t: string)
    requires t != [] && !IsWhitespace(t[|t| - 1])
    ensures var d := ReplaceWhitespaceRuns(t); d != [] && d[|d| - 1] == t[|t| - 1]
    decreases |t|
  {
    if |t| > 1 {
      DashedKeepsLast(t[1..]);
    }
  }

  /** Because the name is trimmed before step 2, step 2 neither starts nor
      ends its output with a hyphen made from whitespace: the output is
      empty exactly when the trimmed name is, and otherwise it starts and
      ends with the trimmed name's own first and last characters. */
  lemma TrimmedDashedEnds(name: string)
    ensures var t := Trim(ToLower(name)); var d := ReplaceWhitespaceRuns(t);
      && (t == [] <==> d == [])
      && (d != [] ==> d[0] == t[0] && d[|d| - 1] == t[|t| - 1])
  {
    var t := Trim(ToLower(name));
    if t != [] {
      DashedKeepsLast(t);
    }
  }

  /** A name made only of whitespace (the empty name included) has the empty slug. */
  lemma BlankNameHasEmptySlug(name: string)
    requires forall i :: 0 <= i < |name| ==> IsWhitespace(name[i])
    ensures GenerateUrlSlug(name) == ""
  {
    var lowered := ToLower(name);
    var started := SkipWhile(IsWhitespace, lowered);
    assert started == [];
  }

  // ---------------------------------------------------------------------------
  // Fixed points and idempotence
  // ---------------------------------------------------------------------------

  lemma {:induction false} ReplaceWhitespaceRunsIdentity(s: string)
    requires forall i :: 0 <= i < |s| ==> !IsWhitespace(s[i])
    ensures ReplaceWhitespaceRuns(s) == s
    decreases |s|
  {
    if s != [] {
      ReplaceWhitespaceRunsIdentity(s[1..]);
      assert [s[0]] + s[1..] == s;
    }
  }

  lemma {:induction false} CollapseHyphensIdentity(s: string)
    requires NoDoubleHyphen(s)
    ensures CollapseHyphens(s) == s
    decreases |s|
  {
    if s != [] {
      assert NoDoubleHyphen(s[1..]) by {
        forall i | 0 <= i < |s[1..]| - 1
          ensures !(s[1..][i] == '-' && s[1..][i + 1] == '-')
        {
          assert s[1..][i] == s[i + 1] && s[1..][i + 1] == s[i + 2];
        }
      }
      CollapseHyphensIdentity(s[1..]);
      assert [s[0]] + s[1..] == s;
    }
  }

  /** A well-formed slug is left unchanged by the generator. */
  lemma SlugFixedPoint(t: string)
    requires IsSlug(t)
    ensures GenerateUrlSlug(t) == t
  {
    assert ToLower(t) == t;
    assert SkipWhile(IsWhitespace, t) == t;
    assert TrimEnd(t) == t;
    ReplaceWhitespaceRunsIdentity(t);
    FilterIdentity(IsWordOrHyphen, t);
    CollapseHyphensIdentity(t);
  }

  /** The generator leaves a string unchanged exactly when it is a well-formed slug. */
  lemma FixedPointsAreSlugs(t: string)
    ensures GenerateUrlSlug(t) == t <==> IsSlug(t)
  {
    if IsSlug(t) {
      SlugFixedPoint(t);
    }
    SlugIsSlug(t);
  }

  /** Applying the generator twice gives the same slug as applying it once. */
  lemma SlugIdempotent(name: string)
    ensures GenerateUrlSlug(GenerateUrlSlug(name)) == GenerateUrlSlug(name)
  {
    SlugIsSlug(name);
    SlugFixedPoint(GenerateUrlSlug(name));
  }

  // ---------------------------------------------------------------------------
  // Steps 2 and 4 agree with a left-to-right regex replacement
  // ---------------------------------------------------------------------------

  /** How `s.replace(re, '-')` proceeds for a global regex `re` that matches
      `min` or more consecutive characters satisfying `p` (`/\s+/` is
      whitespace with `min` 1, `/--+/` is the hyphen with `min` 2): scanning
      from the left, where a match starts the longest run is taken and
      replaced, and scanning resumes after it; elsewhere a character is copied. */
  function RegexRunReplace(p: char -> bool, min: nat, s: string): string
    requires min >= 1
    decreases |s|
  {
    if s == [] then []
    else
      var rest := SkipWhile(p, s);
      if |s| - |rest| >= min then "-" + RegexRunReplace(p, min, rest)
      else [s[0]] + RegexRunReplace(p, min, s[1..])
  }

  /** Step 2 is the greedy replacement of `/\s+/g` by `-`. */
  lemma {:induction false} ReplaceWhitespaceRunsIsRegexReplace(s: string)
    ensures ReplaceWhitespaceRuns(s) == RegexRunReplace(IsWhitespace, 1, s)
    decreases |s|
  {
    if s != [] {
      ReplaceWhitespaceRunsIsRegexReplace(s[1..]);
      if IsWhitespace(s[0]) {
        assert SkipWhile(IsWhitespace, s) == SkipWhile(IsWhitespace, s[1..]);
        if |s| >= 2 && IsWhitespace(s[1]) {
          assert |SkipWhile(IsWhitespace, s[1..])| < |s[1..]|;
        } else {
          assert SkipWhile(IsWhitespace, s[1..]) == s[1..];
        }
      }
    }
  }

  /** Where a run of two or more hyphens starts, the scan produces the same
      as it does one character later, where the run is one shorter: either
      that shorter run is still matched, or it is a lone `-` that is copied. */
  lemma HyphenRunReplace(t: string)
    requires t != [] && t[0] == '-'
    ensures RegexRunReplace(IsHyphen, 2, "-" + t) == RegexRunReplace(IsHyphen, 2, t)
    ensures CollapseHyphens("-" + t) == CollapseHyphens(t)
  {
    var rest := SkipWhile(IsHyphen, t);
    assert ("-" + t)[1..] == t;
    assert SkipWhile(IsHyphen, "-" + t) == rest;
    if |t| - |rest| < 2 {
      assert rest == t[1..];
    }
  }

  /** Where no match of `/--+/` starts (a character other than `-`, or a lone
      `-`), the scan copies the character and goes on with the next one. */
  lemma CopiedReplace(c: char, t: string)
    requires c != '-' || t == [] || t[0] != '-'
    ensures RegexRunReplace(IsHyphen, 2, [c] + t) == [c] + RegexRunReplace(IsHyphen, 2, t)
    ensures CollapseHyphens([c] + t) == [c] + CollapseHyphens(t)
  {
    assert ([c] + t)[1..] == t;
    if c == '-' {
      assert SkipWhile(IsHyphen, t) == t;
    }
  }

  /** Step 4 is the greedy replacement of `/--+/g` by `-`. */
  lemma {:induction false} CollapseHyphensIsRegexReplace(s: string)
    ensures CollapseHyphens(s) == RegexRunReplace(IsHyphen, 2, s)
    decreases |s|
  {
    if s != [] {
      CollapseHyphensIsRegexReplace(s[1..]);
      HeadTail(s);
      CollapseReplaceStep(s[0], s[1..]);
    }
  }

  lemma HeadTail(s: string)
    requires s != []
    ensures s == [s[0]] + s[1..]
  {
  }

  /** One step of the induction: if step 4 and the scan agree on `t`, they
      agree on `t` with one more character in front. */
  lemma CollapseReplaceStep(c: char, t: string)
    requires CollapseHyphens(t) == RegexRunReplace(IsHyphen, 2, t)
    ensures CollapseHyphens([c] + t) == RegexRunReplace(IsHyphen, 2, [c] + t)
  {
    if c == '-' && t != [] && t[0] == '-' {
      assert [c] + t == "-" + t;
      HyphenRunReplace(t);
    } else {
      CopiedReplace(c, t);
    }
  }
}
