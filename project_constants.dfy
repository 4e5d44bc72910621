/** The project's single source of truth: the official Supabase URL, the whitelist of link
    categories, and the patterns that mark a "ghost" URL (a leftover from another project or a
    placeholder). */
module ProjectConstants {
  import opened JsText

  const SupabaseUrl: string := "https://xblewwjjqvwerypvttfh.supabase.co"

  /** `allowedCategories` */
  const AllowedCategories: seq<string> := [
    "github", "assets", "database", "deployment", "platform", "badge",
    "community", "documentation", "registry", "infrastructure", "reference", "license"
  ]

  /** `forbiddenPatterns`, written out as the literal text each pattern matches: an escaped dot
      is a literal dot, and `-`, `_` and `:` are literal outside a character class. Every pattern
      has the `i` flag and none has `g`, so a test carries no state from one call to the next. */
  const ForbiddenPatterns: seq<string> := [
    "lovable.dev", "hello-hug-wave", "REPLACE_WITH_PROJECT_ID", "onbiela.dev",
    "macaly-app.com", "PLACEHOLDER", "TODO:"
  ]

  /** `isGhostUrl`: some forbidden pattern occurs somewhere in the URL, in any letter case. */
  predicate IsGhostUrl(url: string) {
    exists k :: 0 <= k < |ForbiddenPatterns| && ContainsIgnoreCase(url, ForbiddenPatterns[k])
  }

  /** `validateCategory`: the category is exactly one of the twelve allowed ones. */
  predicate ValidateCategory(category: string) {
    category in AllowedCategories
  }

  /** The patterns are unanchored: a string that contains a ghost URL is a ghost URL. */
  lemma GhostInSuperstring(before: string, url: string, after: string)
    requires IsGhostUrl(url)
    ensures IsGhostUrl(before + url + after)
  {
    var k :| 0 <= k < |ForbiddenPatterns| && ContainsIgnoreCase(url, ForbiddenPatterns[k]);
    ContainsIgnoreCaseInSuperstring(url, ForbiddenPatterns[k], before, after);
  }

  /** Every pattern, on its own, is a ghost URL. */
  lemma PatternsAreGhosts(k: nat)
    requires k < |ForbiddenPatterns|
    ensures IsGhostUrl(ForbiddenPatterns[k])
  {
    ContainsItself(ForbiddenPatterns[k]);
  }

  /** The patterns ignore letter case: changing the case of letters never changes the verdict. */
  lemma GhostIgnoresCase(url: string)
    ensures IsGhostUrl(LowerAsciiString(url)) == IsGhostUrl(url)
    ensures IsGhostUrl(UpperAsciiString(url)) == IsGhostUrl(url)
  {
    forall k | 0 <= k < |ForbiddenPatterns| {
      ContainsIgnoreCaseFolds(url, ForbiddenPatterns[k]);
    }
  }

  /** A pattern as long as the subject occurs in it only as the whole of it. */
  lemma SameLengthOccursWhole(s: string, p: string)
    requires |p| == |s|
    ensures Contains(s, p) <==> s == p
  {
    ContainsIffOccurs(s, p);
    if s == p {
      assert OccursAt(s, p, 0);
    }
  }

  /** A pattern holding a character the subject lacks never occurs in it. */
  lemma MissingCharNeverOccurs(s: string, p: string, i: nat)
    requires i < |p| && p[i] !in s
    ensures !Contains(s, p)
  {
    ContainsIffOccurs(s, p);
  }

  /** The characters of which every pattern holds one: `d` in either case, `-` and `_`. */
  predicate IsMark(c: char) {
    c == 'd' || c == 'D' || c == '-' || c == '_'
  }

  /** Where a mark sits in pattern k. */
  function MarkAt(k: nat): nat {
    if k == 1 then 5 else if k == 2 then 7 else if k == 4 then 6 else if k == 6 then 2 else 8
  }

  lemma PatternMark(k: nat)
    requires k < |ForbiddenPatterns|
    ensures MarkAt(k) < |ForbiddenPatterns[k]| && IsMark(ForbiddenPatterns[k][MarkAt(k)])
  {
    if k == 0 { assert ForbiddenPatterns[0][8] == 'd'; }
    else if k == 1 { assert ForbiddenPatterns[1][5] == '-'; }
    else if k == 2 { assert ForbiddenPatterns[2][7] == '_'; }
    else if k == 3 { assert ForbiddenPatterns[3][8] == 'd'; }
    else if k == 4 { assert ForbiddenPatterns[4][6] == '-'; }
    else if k == 5 { assert ForbiddenPatterns[5][8] == 'D'; }
    else { assert ForbiddenPatterns[6][2] == 'D'; }
  }

  /** Every pattern holds a mark, so a URL without one is never a ghost URL. */
  lemma NoGhostWithoutMarks(url: string)
    requires forall j :: 0 <= j < |url| ==> !IsMark(url[j])
    ensures !IsGhostUrl(url)
  {
    forall k | 0 <= k < |ForbiddenPatterns|
      ensures !ContainsIgnoreCase(url, ForbiddenPatterns[k])
    {
      PatternMark(k);
      MissingCharNoMatch(url, ForbiddenPatterns[k], MarkAt(k));
    }
  }

  /** A pattern holding a character that no character of the URL folds to never matches it. */
  lemma MissingCharNoMatch(url: string, p: string, i: nat)
    requires i < |p| && forall j :: 0 <= j < |url| ==> LowerAscii(url[j]) != LowerAscii(p[i])
    ensures !ContainsIgnoreCase(url, p)
  {
    var lu := LowerAsciiString(url);
    assert LowerAsciiString(p)[i] !in lu by {
      forall j | 0 <= j < |lu| ensures lu[j] != LowerAscii(p[i]) {
        assert lu[j] == LowerAscii(url[j]);
      }
    }
    MissingCharNeverOccurs(lu, LowerAsciiString(p), i);
  }

  /** The official Supabase URL is not a ghost URL. */
  lemma OfficialUrlIsNotGhost()
    ensures !IsGhostUrl(SupabaseUrl)
  {
    OfficialUrlHasNoMarks();
    NoGhostWithoutMarks(SupabaseUrl);
  }

  lemma OfficialUrlHasNoMarks()
    ensures forall j :: 0 <= j < |SupabaseUrl| ==> !IsMark(SupabaseUrl[j])
  {
  }

  /** The escaped dot matches only a dot: `lovable.dev` is a ghost, while an eleven-character
      URL with anything but a dot in that place (`lovableXdev`) does not match the pattern. */
  lemma EscapedDotIsLiteral(url: string)
    requires |url| == |ForbiddenPatterns[0]|
    ensures IsGhostUrl(ForbiddenPatterns[0])
    ensures ContainsIgnoreCase(url, ForbiddenPatterns[0]) ==> url[7] == '.'
  {
    PatternsAreGhosts(0);
    var lu, lp := LowerAsciiString(url), LowerAsciiString(ForbiddenPatterns[0]);
    assert lp[7] == LowerAscii(ForbiddenPatterns[0][7]) == '.';
    SameLengthOccursWhole(lu, lp);
    if lu == lp {
      assert LowerAscii(url[7]) == '.';
    }
  }

  /** Made of lower-case ASCII letters only. */
  predicate IsLowerWord(s: string) {
    forall i :: 0 <= i < |s| ==> 'a' <= s[i] <= 'z'
  }

  /** The twelve allowed categories are lower-case words. */
  lemma CategoriesAreLowerWords()
    ensures forall k :: 0 <= k < |AllowedCategories| ==> IsLowerWord(AllowedCategories[k])
  {
  }

  /** Every accepted category is a lower-case word, so no text with an upper-case letter, white
      space or punctuation passes: the check neither folds case nor trims. */
  lemma AcceptedAreLowerWords(category: string)
    ensures ValidateCategory(category) ==> IsLowerWord(category)
  {
    CategoriesAreLowerWords();
  }

  /** The category check is exact and case-sensitive: an accepted category is unchanged by
      lower-casing and by trimming, and any other spelling of it that differs only in letter
      case is refused. */
  lemma CategoryIsExact(category: string, variant: string)
    ensures ValidateCategory(category) ==> LowerAsciiString(category) == category && Trim(category) == category
    ensures ValidateCategory(category) && variant != category && LowerAsciiString(variant) == category
            ==> !ValidateCategory(variant)
  {
    AcceptedAreLowerWords(category);
    AcceptedAreLowerWords(variant);
    if ValidateCategory(category) {
      LowerWordFixed(category);
    }
    if ValidateCategory(variant) {
      LowerWordFixed(variant);
    }
  }

  /** Lower-casing and trimming leave a lower-case word as it is. */
  lemma LowerWordFixed(s: string)
    requires IsLowerWord(s)
    ensures LowerAsciiString(s) == s && Trim(s) == s
  {
    if s != [] {
      assert !IsJsWhitespace(s[0]);
      assert !IsJsWhitespace(s[|s| - 1]);
    }
  }
}
