/** Slug normalisation and the first free slug of a series (api/src/common/slug.ts). */
module Slugs {
  import opened Sets

  const MAX_SLUG_LENGTH: nat := 60

  const FALLBACK_SLUG := "untitled"

  // ----- The slug pattern -----

  predicate IsSlugChar(c: char) { 'a' <= c <= 'z' || '0' <= c <= '9' }

  /** `[a-z0-9]+` */
  predicate IsWord(s: string) {
    s != "" && forall i :: 0 <= i < |s| ==> IsSlugChar(s[i])
  }

  /** `[a-z0-9]+(-[a-z0-9]+)*` */
  predicate MatchesSlugPattern(s: string)
    decreases |s|
  {
    IsWord(s) || exists i :: 0 <= i < |s| && WordThenHyphen(s, i) && MatchesSlugPattern(s[i + 1..])
  }

  predicate WordThenHyphen(s: string, i: nat)
    requires i < |s|
  {
    s[i] == '-' && IsWord(s[..i])
  }

  predicate IsValidSlug(s: string) { |s| <= MAX_SLUG_LENGTH && MatchesSlugPattern(s) }

  /** Only slug characters and single hyphens. */
  predicate IsHyphenated(s: string) {
    && (forall i :: 0 <= i < |s| ==> IsSlugChar(s[i]) || s[i] == '-')
    && (forall i :: 0 <= i < |s| - 1 ==> !(s[i] == '-' && s[i + 1] == '-'))
  }

  predicate IsNormalForm(s: string) {
    s != "" && IsHyphenated(s) && s[0] != '-' && s[|s| - 1] != '-'
  }

  /** Joining normal forms by one hyphen gives a normal form. */
  lemma JoinedNormalForms(a: string, b: string)
    requires IsNormalForm(a) && IsNormalForm(b)
    ensures IsNormalForm(a + "-" + b)
  {
    var s := a + "-" + b;
    forall i | 0 <= i < |s| - 1 ensures !(s[i] == '-' && s[i + 1] == '-') {
      assert s[i] == if i < |a| then a[i] else if i == |a| then '-' else b[i - |a| - 1];
      assert s[i + 1] == if i + 1 < |a| then a[i + 1] else if i + 1 == |a| then '-' else b[i - |a|];
    }
  }

  lemma WordIsNormalForm(s: string)
    requires IsWord(s)
    ensures IsNormalForm(s)
  {
  }

  lemma {:induction false} PatternImpliesNormalForm(s: string)
    requires MatchesSlugPattern(s)
    ensures IsNormalForm(s)
    decreases |s|
  {
    if IsWord(s) {
      WordIsNormalForm(s);
    } else {
      var i :| 0 <= i < |s| && WordThenHyphen(s, i) && MatchesSlugPattern(s[i + 1..]);
      var word, rest := s[..i], s[i + 1..];
      assert s == word + "-" + rest;
      PatternImpliesNormalForm(rest);
      WordIsNormalForm(word);
      JoinedNormalForms(word, rest);
    }
  }

  lemma {:induction false} NormalFormImpliesPattern(s: string)
    requires IsNormalForm(s)
    ensures MatchesSlugPattern(s)
    decreases |s|
  {
    if !IsWord(s) {
      var i := FirstHyphen(s);
      var tail := s[i + 1..];
      assert s[i + 1] != '-' && tail[0] == s[i + 1] && tail[|tail| - 1] == s[|s| - 1];
      assert forall k :: 0 <= k < |tail| ==> tail[k] == s[i + 1 + k];
      NormalFormImpliesPattern(tail);
      assert WordThenHyphen(s, i);
    }
  }

  /** The regular expression accepts exactly the words joined by single hyphens. */
  lemma PatternIsNormalForm(s: string)
    ensures MatchesSlugPattern(s) <==> IsNormalForm(s)
  {
    if MatchesSlugPattern(s) {
      PatternImpliesNormalForm(s);
    } else if IsNormalForm(s) {
      NormalFormImpliesPattern(s);
    }
  }

  lemma {:induction false} FirstHyphen(s: string) returns (i: nat)
    requires s != "" && !IsWord(s) && forall k :: 0 <= k < |s| ==> IsSlugChar(s[k]) || s[k] == '-'
    ensures i < |s| && s[i] == '-' && forall k :: 0 <= k < i ==> s[k] != '-'
    decreases |s|
  {
    if s[0] == '-' {
      i := 0;
    } else {
      var rest := FirstHyphen(s[1..]);
      i := rest + 1;
    }
  }

  // ----- slugify -----

  /** Latin letters without a canonical decomposition. */
  function TransliterateChar(c: char): string {
    if c in {'\U{F8}', '\U{D8}'} then "o"
    else if c in {'\U{142}', '\U{141}'} then "l"
    else if c in {'\U{111}', '\U{110}', '\U{F0}', '\U{D0}'} then "d"
    else if c in {'\U{FE}', '\U{DE}'} then "th"
    else if c == '\U{DF}' then "ss"
    else if c in {'\U{E6}', '\U{C6}'} then "ae"
    else if c in {'\U{153}', '\U{152}'} then "oe"
    else if c == '\U{131}' then "i"
    else [c]
  }

  function Transliterate(s: string): string {
    if s == "" then "" else TransliterateChar(s[0]) + Transliterate(s[1..])
  }

  /** Drops the combining marks that NFD splits off. */
  function StripMarks(s: string): string {
    if s == "" then ""
    else if '\U{300}' <= s[0] <= '\U{36F}' then StripMarks(s[1..])
    else [s[0]] + StripMarks(s[1..])
  }

  /** Each run of other characters becomes one hyphen. */
  function Hyphenate(s: string): string {
    if s == "" then ""
    else if IsSlugChar(s[0]) then [s[0]] + Hyphenate(s[1..])
    else if |s| > 1 && !IsSlugChar(s[1]) then Hyphenate(s[1..])
    else "-" + Hyphenate(s[1..])
  }

  function TrimLeft(s: string): string {
    if s != "" && s[0] == '-' then TrimLeft(s[1..]) else s
  }

  function TrimRight(s: string): string {
    if s != "" && s[|s| - 1] == '-' then TrimRight(s[..|s| - 1]) else s
  }

  function TrimHyphens(s: string): string { TrimRight(TrimLeft(s)) }

  /** `String.prototype.slice(0, end)`, where a negative end counts from the right. */
  function Slice(s: string, end: int): string {
    if end >= 0 then if end < |s| then s[..end] else s
    else if |s| + end > 0 then s[..|s| + end] else ""
  }

  /** Unicode NFD and lower-casing are the caller's; nothing is assumed of them here. */
  function Slugify(input: string, nfd: string -> string, lower: string -> string): string {
    var folded := lower(StripMarks(nfd(Transliterate(input))));
    var hyphenated := TrimHyphens(Hyphenate(folded));
    if hyphenated == "" then FALLBACK_SLUG
    else
      var capped := TrimHyphens(Slice(hyphenated, MAX_SLUG_LENGTH));
      if capped == "" then FALLBACK_SLUG else capped
  }

  lemma {:induction false} HyphenateIsHyphenated(s: string)
    ensures IsHyphenated(Hyphenate(s))
    ensures s != "" && IsSlugChar(s[0]) ==> Hyphenate(s) != "" && Hyphenate(s)[0] != '-'
    ensures s == "" ==> Hyphenate(s) == ""
  {
    if s != "" {
      HyphenateIsHyphenated(s[1..]);
    }
  }

  lemma {:induction false} TrimLeftMeaning(s: string)
    requires IsHyphenated(s)
    ensures IsHyphenated(TrimLeft(s)) && (TrimLeft(s) != "" ==> TrimLeft(s)[0] != '-') && |TrimLeft(s)| <= |s|
  {
    if s != "" && s[0] == '-' {
      TrimLeftMeaning(s[1..]);
    }
  }

  lemma {:induction false} TrimRightMeaning(s: string)
    requires IsHyphenated(s)
    ensures TrimRight(s) <= s && IsHyphenated(TrimRight(s))
    ensures TrimRight(s) != "" ==> TrimRight(s)[|TrimRight(s)| - 1] != '-'
    ensures s != "" && s[0] != '-' ==> TrimRight(s) != ""
  {
    if s != "" && s[|s| - 1] == '-' {
      TrimRightMeaning(s[..|s| - 1]);
    }
  }

  lemma TrimmedIsNormalForm(s: string)
    requires IsHyphenated(s)
    ensures TrimHyphens(s) == "" || IsNormalForm(TrimHyphens(s))
    ensures |TrimHyphens(s)| <= |s|
    ensures s != "" && s[0] != '-' ==> TrimHyphens(s) != ""
  {
    TrimLeftMeaning(s);
    TrimRightMeaning(TrimLeft(s));
  }

  /** slugify yields a valid slug for every input, whatever NFD and lower-casing do. */
  lemma SlugifyIsValid(input: string, nfd: string -> string, lower: string -> string)
    ensures IsValidSlug(Slugify(input, nfd, lower))
  {
    var folded := lower(StripMarks(nfd(Transliterate(input))));
    HyphenateIsHyphenated(folded);
    TrimmedIsNormalForm(Hyphenate(folded));
    var hyphenated := TrimHyphens(Hyphenate(folded));
    TrimmedIsNormalForm(Slice(hyphenated, MAX_SLUG_LENGTH));
    PatternIsNormalForm(Slugify(input, nfd, lower));
    assert IsNormalForm(FALLBACK_SLUG);
    PatternIsNormalForm(FALLBACK_SLUG);
  }

  lemma {:induction false} SlugCharsPassThrough(s: string)
    requires IsHyphenated(s)
    ensures Transliterate(s) == s && StripMarks(s) == s && Hyphenate(s) == s
  {
    if s != "" {
      SlugCharsPassThrough(s[1..]);
      assert [s[0]] + s[1..] == s;
    }
  }

  /** slugify is the identity on valid slugs, NFD and lower-casing being so on that slug. */
  lemma SlugifyKeepsValidSlugs(slug: string, nfd: string -> string, lower: string -> string)
    requires IsValidSlug(slug) && nfd(slug) == slug && lower(slug) == slug
    ensures Slugify(slug, nfd, lower) == slug
  {
    PatternIsNormalForm(slug);
    SlugCharsPassThrough(slug);
  }

  // ----- uniqueSlug -----

  function Digit(d: nat): char
    requires d < 10
  {
    "0123456789"[d]
  }

  function Decimal(n: nat): (s: string)
    ensures IsWord(s) && (|s| == 1 <==> n < 10)
  {
    if n < 10 then [Digit(n)] else Decimal(n / 10) + [Digit(n % 10)]
  }

  lemma {:induction false} DecimalInjective(m: nat, n: nat)
    requires Decimal(m) == Decimal(n)
    ensures m == n
    decreases m
  {
    var s, t := Decimal(m), Decimal(n);
    assert s[|s| - 1] == Digit(m % 10) && t[|t| - 1] == Digit(n % 10);
    if m >= 10 && n >= 10 {
      assert s[..|s| - 1] == Decimal(m / 10) && t[..|t| - 1] == Decimal(n / 10);
      DecimalInjective(m / 10, n / 10);
    }
  }

  function Suffix(n: nat): string { "-" + Decimal(n) }

  /** The `n`th name of the series `base`, `base-2`, `base-3`, ... */
  function Candidate(base: string, n: nat): string {
    TrimHyphens(Slice(base, MAX_SLUG_LENGTH - |Suffix(n)|)) + Suffix(n)
  }

  /** What follows the last hyphen can be read back. */
  lemma SuffixesDiffer(a: string, b: string, s: string, t: string)
    requires IsWord(s) && IsWord(t) && s != t
    ensures a + "-" + s != b + "-" + t
  {
    var left, right := a + "-" + s, b + "-" + t;
    if |left| == |right| {
      if |s| < |t| {
        assert left[|a|] == '-' && right[|a|] == t[|a| - |b| - 1];
      } else if |t| < |s| {
        assert right[|b|] == '-' && left[|b|] == s[|b| - |a| - 1];
      } else {
        assert left[|a| + 1..] == s && right[|b| + 1..] == t;
      }
    }
  }

  lemma CandidatesDiffer(base: string, m: nat, n: nat)
    requires Candidate(base, m) == Candidate(base, n)
    ensures m == n
  {
    var a := TrimHyphens(Slice(base, MAX_SLUG_LENGTH - |Suffix(m)|));
    var b := TrimHyphens(Slice(base, MAX_SLUG_LENGTH - |Suffix(n)|));
    assert a + "-" + Decimal(m) == a + Suffix(m) && b + "-" + Decimal(n) == b + Suffix(n);
    if Decimal(m) != Decimal(n) {
      SuffixesDiffer(a, b, Decimal(m), Decimal(n));
    }
    DecimalInjective(m, n);
  }

  /** All the candidates before the `n`th are taken. */
  ghost predicate TakenBelow(base: string, used: set<string>, n: nat) {
    forall m: nat :: 2 <= m < n ==> Candidate(base, m) in used
  }

  ghost function CandidatesBelow(base: string, n: nat): (r: set<string>)
    ensures forall c :: c in r <==> exists m: nat :: 2 <= m < n && Candidate(base, m) == c
  {
    if n <= 2 then {} else CandidatesBelow(base, n - 1) + {Candidate(base, n - 1)}
  }

  lemma {:induction false} CandidatesBelowCount(base: string, n: nat)
    ensures |CandidatesBelow(base, n)| == if n <= 2 then 0 else n - 2
  {
    if n > 2 {
      CandidatesBelowCount(base, n - 1);
      forall m: nat | 2 <= m < n - 1 ensures Candidate(base, m) != Candidate(base, n - 1) {
        if Candidate(base, m) == Candidate(base, n - 1) {
          CandidatesDiffer(base, m, n - 1);
        }
      }
    }
  }

  /** Distinct candidates cannot all be taken for long. */
  lemma Pigeonhole(base: string, used: set<string>, n: nat)
    requires n >= 2 && TakenBelow(base, used, n)
    ensures n <= |used| + 2
  {
    CandidatesBelowCount(base, n);
    SubsetSize(CandidatesBelow(base, n), used);
  }

  function FirstFree(base: string, used: set<string>, n: nat): (free: nat)
    requires n >= 2 && TakenBelow(base, used, n)
    ensures free >= n && Candidate(base, free) !in used && TakenBelow(base, used, free)
    decreases |used| + 2 - n
  {
    if Candidate(base, n) !in used then n
    else
      Pigeonhole(base, used, n + 1);
      FirstFree(base, used, n + 1)
  }

  function UniqueSlug(base: string, used: set<string>): (slug: string)
    ensures slug !in used
  {
    if base !in used then base else Candidate(base, FirstFree(base, used, 2))
  }

  method FindUniqueSlug(base: string, taken: seq<string>) returns (slug: string)
    ensures slug == UniqueSlug(base, set t | t in taken)
  {
    var used := set t | t in taken;
    if base !in used {
      return base;
    }
    var n := 2;
    while Candidate(base, n) in used
      invariant n >= 2 && TakenBelow(base, used, n)
      invariant FirstFree(base, used, n) == FirstFree(base, used, 2)
      decreases |used| + 2 - n
    {
      Pigeonhole(base, used, n + 1);
      n := n + 1;
    }
    slug := Candidate(base, n);
  }

  /** The result is the first free name of the series, found within |used| + 1 candidates. */
  lemma UniqueSlugIsFirstFree(base: string, used: set<string>)
    ensures base !in used ==> UniqueSlug(base, used) == base
    ensures base in used ==>
              exists n: nat :: 2 <= n <= |used| + 2 && UniqueSlug(base, used) == Candidate(base, n)
                               && Candidate(base, n) !in used && TakenBelow(base, used, n)
  {
    if base in used {
      var n := FirstFree(base, used, 2);
      Pigeonhole(base, used, n);
    }
  }

  lemma RoomyCandidateIsValid(base: string, n: nat)
    requires IsNormalForm(base) && |Suffix(n)| < MAX_SLUG_LENGTH
    ensures IsValidSlug(Candidate(base, n))
  {
    var room := MAX_SLUG_LENGTH - |Suffix(n)|;
    var front := Slice(base, room);
    assert front != "" && front[0] == base[0];
    TrimmedIsNormalForm(front);
    WordIsNormalForm(Decimal(n));
    JoinedNormalForms(TrimHyphens(front), Decimal(n));
    assert Candidate(base, n) == TrimHyphens(front) + "-" + Decimal(n);
    NormalFormImpliesPattern(Candidate(base, n));
  }

  lemma CrampedCandidateIsInvalid(base: string, n: nat)
    requires |Suffix(n)| >= MAX_SLUG_LENGTH
    ensures !IsValidSlug(Candidate(base, n))
  {
    if |Suffix(n)| == MAX_SLUG_LENGTH {
      assert Slice(base, 0) == "";
      assert Candidate(base, n)[0] == '-';
      PatternIsNormalForm(Candidate(base, n));
    }
  }

  /** A suffixed name of a valid base is valid exactly while its suffix leaves room for one character. */
  lemma CandidateValidity(base: string, n: nat)
    requires IsValidSlug(base)
    ensures IsValidSlug(Candidate(base, n)) <==> |Suffix(n)| < MAX_SLUG_LENGTH
  {
    if |Suffix(n)| < MAX_SLUG_LENGTH {
      PatternIsNormalForm(base);
      RoomyCandidateIsValid(base, n);
    } else {
      CrampedCandidateIsInvalid(base, n);
    }
  }

  function Pow10(k: nat): nat { if k == 0 then 1 else 10 * Pow10(k - 1) }

  lemma {:induction false} DecimalLength(n: nat, k: nat)
    requires k > 0 && n < Pow10(k)
    ensures |Decimal(n)| <= k
    decreases k
  {
    if n >= 10 {
      DecimalLength(n / 10, k - 1);
    }
  }

  /** With fewer than 10^58 - 2 names taken, the result is a valid slug that is not taken. */
  lemma UniqueSlugIsValid(base: string, used: set<string>)
    requires IsValidSlug(base) && |used| + 2 < Pow10(MAX_SLUG_LENGTH - 2)
    ensures IsValidSlug(UniqueSlug(base, used)) && UniqueSlug(base, used) !in used
  {
    UniqueSlugIsFirstFree(base, used);
    if base in used {
      var n: nat :| 2 <= n <= |used| + 2 && UniqueSlug(base, used) == Candidate(base, n);
      DecimalLength(n, MAX_SLUG_LENGTH - 2);
      CandidateValidity(base, n);
    }
  }
}
