/** The URL slug generator of the category form: a display name becomes the
    `CatURL` that is sent to the backend.

    The generator is a chain of four string rewrites:
      1. lower-case, then trim surrounding whitespace;
      2. replace every run of whitespace by one `-`;
      3. delete every character that is neither a word character nor `-`;
      4. replace every run of two or more `-` by one `-`.

    Characters are classified the ASCII way: whitespace is space, tab, line
    feed, vertical tab, form feed and carriage return; a word character is an
    ASCII letter, an ASCII digit or `_`; lower-casing maps `A`..`Z` to
    `a`..`z` and leaves every other character alone. */
module UrlSlug {

  // ---------------------------------------------------------------------------
  // Character classes
  // ---------------------------------------------------------------------------

  predicate IsWhitespace(c: char) {
    c == ' ' || '\t' <= c <= '\r'
  }

  predicate IsUpper(c: char) {
    'A' <= c <= 'Z'
  }

  predicate IsDigit(c: char) {
    '0' <= c <= '9'
  }

  /** A word character: an ASCII letter, an ASCII digit or the underscore. */
  predicate IsWordChar(c: char) {
    'a' <= c <= 'z' || IsUpper(c) || IsDigit(c) || c == '_'
  }

  predicate IsHyphen(c: char) {
    c == '-'
  }

  predicate IsNotHyphen(c: char) {
    !IsHyphen(c)
  }

  /** What step 3 keeps: word characters and hyphens. */
  predicate IsWordOrHyphen(c: char) {
    IsWordChar(c) || IsHyphen(c)
  }

  /** The alphabet of a slug: lower-case letters, digits, `_` and `-`. */
  predicate IsSlugChar(c: char) {
    'a' <= c <= 'z' || IsDigit(c) || c == '_' || c == '-'
  }

  /** `A`..`Z` go to their own letters `a`..`z`; every other character is kept. */
  function Lower(c: char): (d: char)
    ensures IsUpper(c) ==> 'a' <= d <= 'z' && d as int - 'a' as int == c as int - 'A' as int
    ensures !IsUpper(d)
    ensures IsWordChar(d) == IsWordChar(c)
    ensures IsWhitespace(d) == IsWhitespace(c)
    ensures !IsUpper(c) ==> d == c
  {
    if IsUpper(c) then (c as int - 'A' as int + 'a' as int) as char else c
  }

  // ---------------------------------------------------------------------------
  // Shapes of strings
  // ---------------------------------------------------------------------------

  predicate NoDoubleHyphen(s: string) {
    forall i :: 0 <= i < |s| - 1 ==> !(s[i] == '-' && s[i + 1] == '-')
  }

  predicate NoUpper(s: string) {
    forall i :: 0 <= i < |s| ==> !IsUpper(s[i])
  }

  predicate AllSlugChars(s: string) {
    forall i :: 0 <= i < |s| ==> IsSlugChar(s[i])
  }

  /** A well-formed slug: only slug characters, and no `--` anywhere. */
  predicate IsSlug(s: string) {
    AllSlugChars(s) && NoDoubleHyphen(s)
  }

  // ---------------------------------------------------------------------------
  // String helpers
  // ---------------------------------------------------------------------------

  /** The characters of `s` that satisfy `p`, in their original order. */
  function Filter(p: char -> bool, s: string): (r: string)
    ensures |r| <= |s|
    ensures forall i :: 0 <= i < |r| ==> p(r[i])
  {
    if s == [] then []
    else (if p(s[0]) then [s[0]] else []) + Filter(p, s[1..])
  }

  /** `s` without its longest prefix of characters satisfying `p`: every
      dropped character satisfies `p`, and the rest does not start with one. */
  function SkipWhile(p: char -> bool, s: string): (r: string)
    ensures |r| <= |s| && r == s[|s| - |r|..]
    ensures forall i :: 0 <= i < |s| - |r| ==> p(s[i])
    ensures r == [] || !p(r[0])
  {
    if s != [] && p(s[0]) then
      var r := SkipWhile(p, s[1..]);
      assert forall i :: 1 <= i < |s| - |r| ==> s[i] == s[1..][i - 1];
      r
    else s
  }

  /** `s` without its longest suffix of whitespace. */
  function TrimEnd(s: string): (r: string)
    ensures |r| <= |s| && r == s[..|r|]
    ensures forall i :: |r| <= i < |s| ==> IsWhitespace(s[i])
    ensures r == [] || !IsWhitespace(r[|r| - 1])
  {
    if s != [] && IsWhitespace(s[|s| - 1]) then TrimEnd(s[..|s| - 1]) else s
  }

  // ---------------------------------------------------------------------------
  // The four steps
  // ---------------------------------------------------------------------------

  /** Step 1a: `toLowerCase()`, character by character: no capital is left,
      every other character stays where it was, and no character changes
      between word, whitespace and other. Each capital becomes its own
      lower-case letter. */
  function ToLower(s: string): (r: string)
    ensures |r| == |s| && NoUpper(r)
    ensures forall i :: 0 <= i < |s| && IsUpper(s[i]) ==>
      'a' <= r[i] <= 'z' && r[i] as int - 'a' as int == s[i] as int - 'A' as int
    ensures forall i :: 0 <= i < |s| ==> IsUpper(s[i]) || r[i] == s[i]
    ensures forall i :: 0 <= i < |s| ==>
      IsWordChar(r[i]) == IsWordChar(s[i]) && IsWhitespace(r[i]) == IsWhitespace(s[i])
  {
    seq(|s|, i requires 0 <= i < |s| => Lower(s[i]))
  }

  /** Step 1b: `trim()`: the result is the slice of `s` left after removing
      the whitespace at both ends, and it neither starts nor ends with
      whitespace. */
  function Trim(s: string): (r: string)
    ensures var k := |s| - |SkipWhile(IsWhitespace, s)|;
      && k + |r| <= |s| && r == s[k..k + |r|]
      && (forall i :: 0 <= i < k ==> IsWhitespace(s[i]))
      && (forall i :: k + |r| <= i < |s| ==> IsWhitespace(s[i]))
    ensures r == [] || (!IsWhitespace(r[0]) && !IsWhitespace(r[|r| - 1]))
  {
    var started := SkipWhile(IsWhitespace, s);
    var r := TrimEnd(started);
    TrimmedSlice(s, |s| - |started|, started, r);
    r
  }

  /** The whitespace-free core `r` of the suffix `s[k..]`, which only
      whitespace precedes in `s` and follows in `s[k..]`, is a slice of `s`
      that only whitespace surrounds, and whitespace neither starts nor ends it. */
  lemma TrimmedSlice(s: string, k: nat, started: string, r: string)
    requires k <= |s| && started == s[k..]
    requires forall i :: 0 <= i < k ==> IsWhitespace(s[i])
    requires started == [] || !IsWhitespace(started[0])
    requires |r| <= |started| && r == started[..|r|]
    requires forall i :: |r| <= i < |started| ==> IsWhitespace(started[i])
    requires r == [] || !IsWhitespace(r[|r| - 1])
    ensures k + |r| <= |s| && r == s[k..k + |r|]
    ensures forall i :: 0 <= i < k ==> IsWhitespace(s[i])
    ensures forall i :: k + |r| <= i < |s| ==> IsWhitespace(s[i])
    ensures r == [] || (!IsWhitespace(r[0]) && !IsWhitespace(r[|r| - 1]))
  {
    forall i | k + |r| <= i < |s|
      ensures IsWhitespace(s[i])
    {
      assert s[i] == started[i - k];
    }
  }

  /** Step 2: `replace(/\s+/g, '-')`. A run of whitespace is matched greedily,
      so the whole run becomes a single hyphen: every whitespace character
      that another one follows is dropped, and the last of the run becomes `-`. */
  function ReplaceWhitespaceRuns(s: string): (r: string)
    ensures |r| <= |s|
    ensures forall i :: 0 <= i < |r| ==> !IsWhitespace(r[i])
    decreases |s|
  {
    if s == [] then []
    else if IsWhitespace(s[0]) && |s| >= 2 && IsWhitespace(s[1]) then ReplaceWhitespaceRuns(s[1..])
    else if IsWhitespace(s[0]) then "-" + ReplaceWhitespaceRuns(s[1..])
    else [s[0]] + ReplaceWhitespaceRuns(s[1..])
  }

  /** Step 3: `replace(/[^\w-]+/g, '')`. Deleting runs of unwanted characters
      is deleting each of them. */
  function RemoveNonWord(s: string): (r: string)
    ensures |r| <= |s|
    ensures forall i :: 0 <= i < |r| ==> IsWordOrHyphen(r[i])
  {
    Filter(IsWordOrHyphen, s)
  }

  /** Step 4: `replace(/--+/g, '-')`. A run of two or more hyphens becomes one
      hyphen: every hyphen that another one follows is dropped. A lone hyphen
      is left as it is. */
  function CollapseHyphens(s: string): (r: string)
    ensures |r| <= |s|
    ensures s != [] ==> r != [] && r[0] == s[0]
    decreases |s|
  {
    if s == [] then []
    else if |s| >= 2 && s[0] == '-' && s[1] == '-' then CollapseHyphens(s[1..])
    else [s[0]] + CollapseHyphens(s[1..])
  }

  /** `generateUrlSlug(name)`. Every step only deletes or replaces
      characters, so the slug is never longer than the name. */
  function GenerateUrlSlug(name: string): (slug: string)
    ensures |slug| <= |name|
  {
    CollapseHyphens(RemoveNonWord(ReplaceWhitespaceRuns(Trim(ToLower(name)))))
  }
}
