/** What slugify makes of a text: its letters and digits in order, hyphens for what stood between them. */
module SlugText {
  import opened Slugs

  /** The slug characters of a text, in order. */
  function Letters(s: string): string {
    if s == "" then "" else (if IsSlugChar(s[0]) then [s[0]] else "") + Letters(s[1..])
  }

  /** For each slug character but the first, whether it directly follows the one before it. */
  function Joins(s: string): seq<bool> {
    if s == "" then []
    else if !IsSlugChar(s[0]) || Letters(s[1..]) == "" then Joins(s[1..])
    else [IsSlugChar(s[1])] + Joins(s[1..])
  }

  /** The same slug characters, and something between two of them exactly where there was something. */
  predicate SameText(a: string, b: string) { Letters(a) == Letters(b) && Joins(a) == Joins(b) }

  lemma Prepend(c: char, rest: string)
    ensures Letters([c] + rest) == (if IsSlugChar(c) then [c] else "") + Letters(rest)
    ensures Joins([c] + rest)
         == if !IsSlugChar(c) || Letters(rest) == "" then Joins(rest) else [IsSlugChar(rest[0])] + Joins(rest)
  {
    assert ([c] + rest)[1..] == rest;
  }

  lemma {:induction false} HyphenatedHasSameText(s: string)
    ensures SameText(Hyphenate(s), s)
    ensures Hyphenate(s) != "" <==> s != ""
    ensures s != "" ==> (IsSlugChar(Hyphenate(s)[0]) <==> IsSlugChar(s[0]))
  {
    if s != "" {
      var rest := Hyphenate(s[1..]);
      HyphenatedHasSameText(s[1..]);
      if IsSlugChar(s[0]) {
        Prepend(s[0], rest);
        assert rest != "" ==> |s| > 1 && (IsSlugChar(rest[0]) <==> IsSlugChar(s[1]));
      } else if |s| == 1 || IsSlugChar(s[1]) {
        Prepend('-', rest);
      }
    }
  }

  lemma {:induction false} TrailingOther(s: string, c: char)
    requires !IsSlugChar(c)
    ensures SameText(s + [c], s)
  {
    if s != "" {
      assert (s + [c])[1..] == s[1..] + [c];
      TrailingOther(s[1..], c);
    } else {
      Prepend(c, "");
      assert s + [c] == [c] + "";
    }
  }

  lemma {:induction false} TrimmedLeftHasSameText(s: string)
    ensures SameText(TrimLeft(s), s)
  {
    if s != "" && s[0] == '-' {
      TrimmedLeftHasSameText(s[1..]);
    }
  }

  lemma {:induction false} TrimmedRightHasSameText(s: string)
    ensures SameText(TrimRight(s), s)
  {
    if s != "" && s[|s| - 1] == '-' {
      TrimmedRightHasSameText(s[..|s| - 1]);
      assert s[..|s| - 1] + ['-'] == s;
      TrailingOther(s[..|s| - 1], '-');
    }
  }

  /** A normal form is determined by its letters and where they join. */
  lemma {:induction false} NormalFormIsDetermined(a: string, b: string)
    requires IsNormalForm(a) && IsNormalForm(b) && SameText(a, b)
    ensures a == b
    decreases |a|
  {
    LettersOfNormalForm(a);
    LettersOfNormalForm(b);
    assert Letters(a)[0] == a[0] && Letters(a)[1..] == Letters(a[1..]);
    assert Letters(b)[0] == b[0] && Letters(b)[1..] == Letters(b[1..]);
    if |a| > 1 {
      TailOfNormalForm(a);
      TailOfNormalForm(b);
      assert Joins(a)[0] == IsSlugChar(a[1]) && Joins(a)[1..] == Joins(a[1..]);
      assert Joins(b)[0] == IsSlugChar(b[1]) && Joins(b)[1..] == Joins(b[1..]);
      if IsSlugChar(a[1]) {
        NormalFormIsDetermined(a[1..], b[1..]);
      } else {
        assert a[1..][1..] == a[2..] && b[1..][1..] == b[2..];
        assert Letters(a[1..]) == Letters(a[2..]) && Letters(b[1..]) == Letters(b[2..]);
        assert Joins(a[1..]) == Joins(a[2..]) && Joins(b[1..]) == Joins(b[2..]);
        NormalFormIsDetermined(a[2..], b[2..]);
        assert a == [a[0], a[1]] + a[2..] && b == [b[0], b[1]] + b[2..];
      }
    }
  }

  lemma LettersOfNormalForm(s: string)
    requires IsNormalForm(s)
    ensures IsSlugChar(s[0]) && Letters(s) == [s[0]] + Letters(s[1..]) && (|s| > 1 <==> Letters(s[1..]) != "")
    ensures |s| > 1 ==> Joins(s) == [IsSlugChar(s[1])] + Joins(s[1..])
  {
    if |s| > 1 {
      HasLetter(s[1..], |s| - 2);
    }
  }

  lemma TailOfNormalForm(s: string)
    requires IsNormalForm(s) && |s| > 1
    ensures if IsSlugChar(s[1]) then IsNormalForm(s[1..]) else |s| > 2 && IsNormalForm(s[2..])
  {
  }

  lemma {:induction false} HasLetter(s: string, i: nat)
    requires i < |s| && IsSlugChar(s[i])
    ensures Letters(s) != ""
  {
    if i > 0 {
      HasLetter(s[1..], i - 1);
    }
  }

  lemma {:induction false} NoLetter(s: string)
    requires Letters(s) == ""
    ensures forall i :: 0 <= i < |s| ==> !IsSlugChar(s[i])
  {
    if s != "" {
      NoLetter(s[1..]);
    }
  }

  // ----- Folding -----

  /** The letters that transliteration replaces; NFD splits every other accented letter. */
  const NON_DECOMPOSING: set<char> :=
    {'\U{F8}', '\U{D8}', '\U{142}', '\U{141}', '\U{111}', '\U{110}', '\U{F0}', '\U{D0}', '\U{FE}', '\U{DE}', '\U{DF}',
     '\U{E6}', '\U{C6}', '\U{153}', '\U{152}', '\U{131}'}

  /** Each of these letters becomes slug characters, in place; every other character stays. */
  lemma {:induction false} TransliteratesEachChar(a: string, c: char, b: string)
    ensures Transliterate(a + [c] + b) == Transliterate(a) + TransliterateChar(c) + Transliterate(b)
    ensures if c in NON_DECOMPOSING then IsWord(TransliterateChar(c)) else TransliterateChar(c) == [c]
  {
    if a == "" {
      assert (a + [c] + b)[1..] == b;
    } else {
      assert (a + [c] + b)[1..] == a[1..] + [c] + b;
      TransliteratesEachChar(a[1..], c, b);
    }
  }

  predicate IsMark(c: char) { '\U{300}' <= c <= '\U{36F}' }

  /** Combining marks go, and nothing else does. */
  lemma {:induction false} StripsEachMark(a: string, c: char, b: string)
    ensures StripMarks(a + [c] + b) == StripMarks(a) + (if IsMark(c) then "" else [c]) + StripMarks(b)
  {
    if a == "" {
      assert (a + [c] + b)[1..] == b;
    } else {
      assert (a + [c] + b)[1..] == a[1..] + [c] + b;
      StripsEachMark(a[1..], c, b);
    }
  }

  // ----- slugify -----

  function Folded(input: string, nfd: string -> string, lower: string -> string): string {
    lower(StripMarks(nfd(Transliterate(input))))
  }

  /** The one normal form with the letters of `f`, hyphenated where something stood between them. */
  predicate IsHyphenationOf(text: string, f: string) { IsNormalForm(text) && SameText(text, f) }

  lemma TrimmedHyphenation(f: string)
    ensures Letters(f) == "" ==> TrimHyphens(Hyphenate(f)) == ""
    ensures Letters(f) != "" ==> IsHyphenationOf(TrimHyphens(Hyphenate(f)), f)
  {
    HyphenatedHasSameText(f);
    TrimmedLeftHasSameText(Hyphenate(f));
    TrimmedRightHasSameText(TrimLeft(Hyphenate(f)));
    HyphenateIsHyphenated(f);
    TrimmedIsNormalForm(Hyphenate(f));
    if TrimHyphens(Hyphenate(f)) != "" {
      LettersOfNormalForm(TrimHyphens(Hyphenate(f)));
    }
  }

  /** The longest prefix of at most `cap` characters that does not end in a hyphen. */
  predicate IsCapOf(slug: string, text: string, cap: nat)
    requires 0 < cap
  {
    slug == if |text| <= cap then text else if text[cap - 1] == '-' then text[..cap - 1] else text[..cap]
  }

  lemma CapTrims(text: string, cap: nat)
    requires IsNormalForm(text) && 0 < cap
    ensures IsCapOf(TrimHyphens(Slice(text, cap)), text, cap)
  {
    var s := Slice(text, cap);
    assert TrimLeft(s) == s;
    if s[|s| - 1] == '-' {
      var shorter := s[..|s| - 1];
      assert shorter[|s| - 2] == text[|s| - 2] && s[|s| - 1] == text[|s| - 1];
      assert text[|s| - 2] != '-' && TrimRight(shorter) == shorter;
      assert shorter == text[..|s| - 1];
    }
  }

  /**
   slugify keeps the letters and digits of the folded text in order, with one hyphen
   between two of them exactly where something else stood between them, cut to 60
   characters; a text without any becomes "untitled".
   */
  lemma SlugifyMeaning(input: string, nfd: string -> string, lower: string -> string, text: string)
    ensures var f, slug := Folded(input, nfd, lower), Slugify(input, nfd, lower);
            && (Letters(f) == "" ==> slug == FALLBACK_SLUG)
            && (IsHyphenationOf(text, f) ==> IsCapOf(slug, text, MAX_SLUG_LENGTH))
            && (Letters(f) != "" ==> exists t :: IsHyphenationOf(t, f))
  {
    var f := Folded(input, nfd, lower);
    var hyphenated := TrimHyphens(Hyphenate(f));
    TrimmedHyphenation(f);
    if IsHyphenationOf(text, f) {
      LettersOfNormalForm(text);
      NormalFormIsDetermined(text, hyphenated);
      CapTrims(text, MAX_SLUG_LENGTH);
    }
  }

  // ----- The series of names -----

  function Value(s: string): nat {
    if s == "" then 0 else 10 * Value(s[..|s| - 1]) + if '0' <= s[|s| - 1] <= '9' then (s[|s| - 1] - '0') as nat else 0
  }

  lemma {:induction false} DecimalReadsBack(n: nat)
    ensures Value(Decimal(n)) == n
  {
    if n >= 10 {
      DecimalReadsBack(n / 10);
      assert Decimal(n)[..|Decimal(n)| - 1] == Decimal(n / 10);
    }
  }

  /**
   The numbered names of a valid base: its longest prefix that leaves room and does not end in
   a hyphen, a hyphen, and the number in decimal.
   */
  lemma CandidateMeaning(base: string, n: nat) returns (stem: string)
    requires IsValidSlug(base) && |Suffix(n)| < MAX_SLUG_LENGTH
    ensures IsCapOf(stem, base, MAX_SLUG_LENGTH - |Suffix(n)|) && Candidate(base, n) == stem + "-" + Decimal(n)
    ensures Value(Decimal(n)) == n
  {
    stem := TrimHyphens(Slice(base, MAX_SLUG_LENGTH - |Suffix(n)|));
    assert IsCapOf(stem, base, MAX_SLUG_LENGTH - |Suffix(n)|) by {
      PatternIsNormalForm(base);
      CapTrims(base, MAX_SLUG_LENGTH - |Suffix(n)|);
    }
    JoinedBySuffix(stem, n);
    DecimalReadsBack(n);
  }

  lemma JoinedBySuffix(stem: string, n: nat)
    ensures stem + Suffix(n) == stem + "-" + Decimal(n)
  {
  }
}
