/** Artifact file names: ParseFilename of internal/artifact/artifact.go against
    buildFilenameFromParts of internal/http/write.go. */
module Filename {
  import opened Text

  datatype Parts = Parts(slug: string, index: nat, suffix: string)

  const MAX_INT := 0x7FFF_FFFF_FFFF_FFFF

  // ----- decimal numbers -----

  predicate AllDigits(s: string) {
    forall i :: 0 <= i < |s| ==> IsDigit(s[i])
  }

  function DigitValue(c: char): (n: nat)
    requires IsDigit(c)
    ensures n < 10 && Digit(n) == c
  {
    (c as int) - ('0' as int)
  }

  function Value(digits: string): nat
    requires AllDigits(digits)
  {
    if digits == [] then 0 else Value(digits[..|digits| - 1]) * 10 + DigitValue(digits[|digits| - 1])
  }

  function Digit(n: nat): (c: char)
    requires n < 10
    ensures IsDigit(c) && c as int == '0' as int + n
  {
    ('0' as int + n) as char
  }

  function Decimal(n: nat): (s: string)
    ensures s != [] && AllDigits(s)
  {
    if n < 10 then [Digit(n)] else Decimal(n / 10) + [Digit(n % 10)]
  }

  lemma {:induction false} ValueOfDecimal(n: nat)
    ensures Value(Decimal(n)) == n
  {
    if n >= 10 {
      ValueOfDecimal(n / 10);
      assert Decimal(n)[..|Decimal(n)| - 1] == Decimal(n / 10);
    } else {
      assert Decimal(n)[..0] == [];
    }
  }

  lemma ZeroValue()
    ensures Value("0") == 0
  {
    assert "0"[..0] == "";
  }

  /** Digits are the decimal form of their value unless they start with a zero. */
  lemma {:induction false} DecimalOfValue(digits: string)
    requires digits != [] && AllDigits(digits)
    ensures Decimal(Value(digits)) == digits <==> digits == "0" || digits[0] != '0'
    ensures digits[0] != '0' ==> Value(digits) > 0
  {
    var n := |digits| - 1;
    var front := digits[..n];
    var last := DigitValue(digits[n]);
    assert digits == front + [digits[n]];
    if front == [] {
      assert Value(digits) == last;
      assert [Digit(last)] == [digits[n]];
    } else {
      DecimalOfValue(front);
      assert Value(digits) == Value(front) * 10 + last;
      if Value(front) > 0 {
        assert Decimal(Value(digits)) == Decimal(Value(front)) + [Digit(last)];
        SameFront(Decimal(Value(front)), front, digits[n]);
        ZeroValue();
      }
    }
  }

  lemma SameFront(a: string, b: string, c: char)
    ensures a + [c] == b + [c] <==> a == b
  {
    if a + [c] == b + [c] {
      assert a == (a + [c])[..|a|] == (b + [c])[..|b|] == b;
    }
  }

  /** strconv.Atoi on digits: too large a number comes out as the largest int. */
  function Atoi(digits: string): nat
    requires AllDigits(digits)
  {
    if Value(digits) > MAX_INT then MAX_INT else Value(digits)
  }

  // ----- parsing -----

  /** How many digits follow the dash at k. */
  function DigitsAfter(stem: string, k: nat): (n: nat)
    requires k < |stem|
    ensures k + 1 + n <= |stem|
    ensures forall i :: k < i < k + 1 + n ==> IsDigit(stem[i])
    ensures k + 1 + n < |stem| ==> !IsDigit(stem[k + 1 + n])
  {
    RunEnd(stem, IsDigit, k + 1) - (k + 1)
  }

  /** From k on the stem is a dash, digits, and possibly a dash and letters. */
  predicate IsTail(stem: string, k: nat) {
    && k < |stem| && stem[k] == '-'
    && var end := k + 1 + DigitsAfter(stem, k);
       && end > k + 1
       && (end == |stem|
           || (stem[end] == '-' && end + 1 < |stem| && forall i :: end < i < |stem| ==> IsLetter(stem[i])))
  }

  /** A place where the pattern of the file names can cut the slug off. */
  predicate IsCut(stem: string, k: nat) {
    0 < k < |stem| && '\n' !in stem[..k] && IsTail(stem, k)
  }

  /** The last such place before k, or 0: the slug is matched greedily. */
  function LastCut(stem: string, k: nat): (c: nat)
    ensures c > 0 ==> c < k && IsCut(stem, c)
    ensures forall i :: c < i < k ==> !IsCut(stem, i)
  {
    if k == 0 then 0 else if IsCut(stem, k - 1) then k - 1 else LastCut(stem, k - 1)
  }

  function IndexDigits(stem: string, k: nat): (d: string)
    requires IsTail(stem, k)
    ensures d != [] && AllDigits(d)
  {
    stem[k + 1..k + 1 + DigitsAfter(stem, k)]
  }

  function SuffixAt(stem: string, k: nat): string
    requires IsTail(stem, k)
  {
    var end := k + 1 + DigitsAfter(stem, k);
    if end == |stem| then "" else stem[end + 1..]
  }

  function ParseFilename(stem: string): Parts {
    var k := LastCut(stem, |stem|);
    if k == 0 then Parts(stem, 0, "") else Parts(stem[..k], Atoi(IndexDigits(stem, k)), SuffixAt(stem, k))
  }

  // ----- printing -----

  function BuildFilename(p: Parts): string {
    Stem(p) + ".md"
  }

  function Stem(p: Parts): string {
    if p.index == 0 then p.slug
    else if p.suffix != "" then p.slug + "-" + Decimal(p.index) + "-" + p.suffix
    else p.slug + "-" + Decimal(p.index)
  }

  function TrimMD(name: string): string {
    if |name| >= 3 && name[|name| - 3..] == ".md" then name[..|name| - 3] else name
  }

  lemma StemOfName(p: Parts)
    ensures TrimMD(BuildFilename(p)) == Stem(p)
  {
    var name := BuildFilename(p);
    assert name[|name| - 3..] == ".md";
    assert name[..|name| - 3] == Stem(p);
  }

  // ----- printing, then parsing -----

  predicate AllLetters(s: string) {
    forall i :: 0 <= i < |s| ==> IsLetter(s[i])
  }

  function Tail(digits: string, suffix: string): string {
    "-" + digits + if suffix == "" then "" else "-" + suffix
  }

  lemma DigitsAre(stem: string, k: nat, n: nat)
    requires k + 1 + n <= |stem|
    requires forall i :: k < i < k + 1 + n ==> IsDigit(stem[i])
    requires k + 1 + n < |stem| ==> !IsDigit(stem[k + 1 + n])
    ensures DigitsAfter(stem, k) == n
  {
  }

  /** Where the characters of a printed tail come from. */
  lemma TailChars(slug: string, digits: string, suffix: string)
    ensures var stem, k, end := slug + Tail(digits, suffix), |slug|, |slug| + 1 + |digits|;
            && stem[..k] == slug && stem[k] == '-' && stem[k + 1..end] == digits
            && (suffix == "" ==> |stem| == end)
            && (suffix != "" ==> |stem| == end + 1 + |suffix| && stem[end] == '-' && stem[end + 1..] == suffix)
  {
  }

  /** A printed tail is a tail, and read as what was printed. */
  lemma TailReads(stem: string, k: nat, digits: string, suffix: string)
    requires digits != [] && AllDigits(digits) && AllLetters(suffix)
    requires k + 1 + |digits| <= |stem| && stem[k] == '-' && stem[k + 1..k + 1 + |digits|] == digits
    requires suffix == "" ==> |stem| == k + 1 + |digits|
    requires suffix != "" ==>
      |stem| == k + 2 + |digits| + |suffix| && stem[k + 1 + |digits|] == '-' && stem[k + 2 + |digits|..] == suffix
    ensures IsTail(stem, k) && IndexDigits(stem, k) == digits && SuffixAt(stem, k) == suffix
  {
    var end := k + 1 + |digits|;
    forall i | k < i < end
      ensures IsDigit(stem[i])
    {
      assert stem[i] == stem[k + 1..end][i - k - 1];
    }
    DigitsAre(stem, k, |digits|);
    forall i | end < i < |stem|
      ensures IsLetter(stem[i])
    {
      assert stem[i] == stem[end + 1..][i - end - 1];
    }
  }

  /** The characters of a tail behind its first dash are digits, one dash and letters. */
  lemma TailDashes(stem: string, k: nat, digits: string, suffix: string, i: nat)
    requires AllDigits(digits) && AllLetters(suffix)
    requires k + 1 + |digits| <= |stem| && stem[k + 1..k + 1 + |digits|] == digits
    requires suffix == "" ==> |stem| == k + 1 + |digits|
    requires suffix != "" ==> |stem| == k + 2 + |digits| + |suffix| && stem[k + 2 + |digits|..] == suffix
    requires k < i < |stem| && i != k + 1 + |digits|
    ensures stem[i] != '-'
    ensures i > k + 1 + |digits| ==> IsLetter(stem[i])
  {
    if i < k + 1 + |digits| {
      assert stem[i] == stem[k + 1..k + 1 + |digits|][i - k - 1];
    } else {
      assert stem[i] == stem[k + 2 + |digits|..][i - k - 2 - |digits|];
    }
  }

  /** Behind a printed slug there is no other tail: a later dash is followed by a letter. */
  lemma NoLaterTail(slug: string, digits: string, suffix: string, i: nat)
    requires AllDigits(digits) && AllLetters(suffix) && |slug| < i
    ensures !IsTail(slug + Tail(digits, suffix), i)
  {
    var stem, k := slug + Tail(digits, suffix), |slug|;
    TailChars(slug, digits, suffix);
    if i < |stem| && i != k + 1 + |digits| {
      TailDashes(stem, k, digits, suffix, i);
    } else if i < |stem| {
      TailDashes(stem, k, digits, suffix, i + 1);
      DigitsAre(stem, i, 0);
    }
  }

  lemma LastCutIs(stem: string, k: nat)
    requires IsCut(stem, k) && forall i :: k < i < |stem| ==> !IsTail(stem, i)
    ensures LastCut(stem, |stem|) == k
  {
  }

  lemma PrintedReads(stem: string, slug: string, digits: string, suffix: string)
    requires stem == slug + Tail(digits, suffix) && slug != "" && '\n' !in slug
    requires digits != [] && AllDigits(digits) && AllLetters(suffix)
    ensures ParseFilename(stem) == Parts(slug, Atoi(digits), suffix)
  {
    TailChars(slug, digits, suffix);
    TailReads(stem, |slug|, digits, suffix);
    forall i | |slug| < i < |stem|
      ensures !IsTail(stem, i)
    {
      NoLaterTail(slug, digits, suffix, i);
    }
    LastCutIs(stem, |slug|);
  }

  /** A suffix read from a name is letters. */
  lemma ParsedSuffix(stem: string)
    ensures AllLetters(ParseFilename(stem).suffix)
  {
    var k := LastCut(stem, |stem|);
    if k > 0 {
      var end := k + 1 + DigitsAfter(stem, k);
      LettersBehind(stem, end);
    }
  }

  lemma LettersBehind(stem: string, end: nat)
    requires end < |stem| ==> forall i :: end < i < |stem| ==> IsLetter(stem[i])
    ensures end < |stem| ==> AllLetters(stem[end + 1..])
  {
  }

  lemma IndexedReads(p: Parts)
    requires 0 < p.index <= MAX_INT && AllLetters(p.suffix)
    ensures ParseFilename(Stem(p)) == p <==> p.slug != "" && '\n' !in p.slug
  {
    var digits := Decimal(p.index);
    var stem := p.slug + Tail(digits, p.suffix);
    PrintedStem(p);
    TailChars(p.slug, digits, p.suffix);
    if p.slug != "" && '\n' !in p.slug {
      PrintedReads(stem, p.slug, digits, p.suffix);
      ValueOfDecimal(p.index);
    } else {
      OtherSlug(stem, p);
    }
  }

  lemma UnindexedReads(p: Parts)
    requires p.index == 0
    ensures ParseFilename(Stem(p)) == p <==> p.suffix == "" && forall k :: !IsCut(p.slug, k)
  {
    var k := LastCut(p.slug, |p.slug|);
    if k > 0 {
      assert IsCut(p.slug, k) && |p.slug[..k]| < |p.slug|;
    }
  }

  /** A printed name is read back as it was meant exactly when: with an index, the slug is there and
      has no line break, and the suffix is letters; without one, there is no suffix and the slug does
      not itself end like an indexed name. */
  lemma PrintParse(p: Parts)
    requires p.index <= MAX_INT
    ensures ParseFilename(TrimMD(BuildFilename(p))) == p <==>
      if p.index == 0 then p.suffix == "" && forall k :: !IsCut(p.slug, k)
      else p.slug != "" && '\n' !in p.slug && AllLetters(p.suffix)
  {
    StemOfName(p);
    ParsedSuffix(Stem(p));
    if p.index == 0 {
      UnindexedReads(p);
    } else if AllLetters(p.suffix) {
      IndexedReads(p);
    }
  }

  /** The condition is needed: without an index, a slug that ends in a number is read as an indexed
      name. */
  lemma NumberedSlugReads(p: Parts, slug: string, digits: string)
    requires slug != "" && '\n' !in slug && digits != [] && AllDigits(digits)
    requires p == Parts(slug + Tail(digits, ""), 0, "")
    ensures ParseFilename(TrimMD(BuildFilename(p))) == Parts(slug, Atoi(digits), "") != p
  {
    StemOfName(p);
    PrintedReads(p.slug, slug, digits, "");
    assert |slug| < |p.slug|;
  }

  lemma LoginThree(p: Parts, slug: string, digits: string)
    requires p == Parts("login-3", 0, "") && slug == "login" && digits == "3"
    ensures BuildFilename(p) == "login-3.md"
    ensures ParseFilename(TrimMD(BuildFilename(p))) == Parts(slug, 3, "") != p
  {
    assert p.slug == slug + Tail(digits, "");
    OneDigit(digits);
    NumberedSlugReads(p, slug, digits);
  }

  lemma OneDigit(digits: string)
    requires |digits| == 1 && IsDigit(digits[0])
    ensures AllDigits(digits) && Atoi(digits) == DigitValue(digits[0])
  {
    assert digits[..|digits| - 1] == [] && Value(digits[..|digits| - 1]) == 0;
    assert Value(digits) == DigitValue(digits[0]);
  }

  lemma OtherSlug(stem: string, p: Parts)
    requires p.slug == "" || '\n' in p.slug
    requires |p.slug| < |stem| && stem[..|p.slug|] == p.slug
    ensures ParseFilename(stem) != p
  {
    var k := LastCut(stem, |stem|);
    if k == |p.slug| {
      assert stem[..k] == p.slug;
    }
  }

  // ----- parsing, then printing -----

  lemma CutSplits(stem: string, k: nat)
    requires IsCut(stem, k)
    ensures stem == stem[..k] + Tail(IndexDigits(stem, k), SuffixAt(stem, k))
  {
    var end := k + 1 + DigitsAfter(stem, k);
    assert IndexDigits(stem, k) == stem[k + 1..end];
    assert SuffixAt(stem, k) == if end == |stem| then "" else stem[end + 1..];
    SplitAtDashes(stem, k, end);
  }

  lemma SplitAtDashes(stem: string, k: nat, end: nat)
    requires k < end <= |stem| && stem[k] == '-' && (end < |stem| ==> stem[end] == '-' && end + 1 < |stem|)
    ensures stem == stem[..k] + Tail(stem[k + 1..end], if end == |stem| then "" else stem[end + 1..])
  {
  }

  lemma SameTail(slug: string, a: string, b: string, suffix: string)
    ensures slug + Tail(a, suffix) == slug + Tail(b, suffix) <==> a == b
  {
    if slug + Tail(a, suffix) == slug + Tail(b, suffix) {
      assert |a| == |b|;
      assert a == (slug + Tail(a, suffix))[|slug| + 1..|slug| + 1 + |a|];
      assert b == (slug + Tail(b, suffix))[|slug| + 1..|slug| + 1 + |b|];
    }
  }

  /** A stem is printed back as it was exactly when it has no index, or one without a leading zero
      that fits an int. */
  lemma ParsePrint(stem: string)
    ensures var k := LastCut(stem, |stem|);
            Stem(ParseFilename(stem)) == stem <==>
              k == 0 || (IndexDigits(stem, k)[0] != '0' && Value(IndexDigits(stem, k)) <= MAX_INT)
  {
    var k := LastCut(stem, |stem|);
    if k > 0 {
      CutSplits(stem, k);
      Reprint(stem[..k], IndexDigits(stem, k), SuffixAt(stem, k));
    }
  }

  lemma DecimalOfAtoi(digits: string)
    requires digits != [] && AllDigits(digits)
    ensures Decimal(Atoi(digits)) == digits <==> (digits == "0" || digits[0] != '0') && Value(digits) <= MAX_INT
  {
    DecimalOfValue(digits);
    ValueOfDecimal(Atoi(digits));
  }

  lemma Reprint(slug: string, digits: string, suffix: string)
    requires digits != [] && AllDigits(digits)
    ensures Stem(Parts(slug, Atoi(digits), suffix)) == slug + Tail(digits, suffix)
            <==> digits[0] != '0' && Value(digits) <= MAX_INT
  {
    DecimalOfAtoi(digits);
    if Atoi(digits) == 0 {
      DecimalOfValue(digits);
      assert |slug| < |slug + Tail(digits, suffix)|;
    } else {
      ZeroValue();
      PrintedStem(Parts(slug, Atoi(digits), suffix));
      SameTail(slug, Decimal(Atoi(digits)), digits, suffix);
    }
  }

  lemma PrintedStem(p: Parts)
    requires p.index > 0
    ensures Stem(p) == p.slug + Tail(Decimal(p.index), p.suffix)
  {
  }

  // ----- slugs -----

  predicate IsSlugChar(c: char) {
    'a' <= c <= 'z' || IsDigit(c)
  }

  lemma SlugCharsAre(c: char)
    ensures IsSlugChar(c) <==> c in "abcdefghijklmnopqrstuvwxyz0123456789"
  {
  }

  predicate IsValidSlug(s: string) {
    && s != "" && IsSlugChar(s[0]) && IsSlugChar(s[|s| - 1])
    && forall i :: 0 <= i < |s| ==> IsSlugChar(s[i]) || s[i] == '-'
  }

  /** Every name built with an index from a valid slug is read back. */
  lemma ValidSlugsReadBack(p: Parts)
    requires IsValidSlug(p.slug) && 0 < p.index <= MAX_INT && AllLetters(p.suffix)
    ensures ParseFilename(TrimMD(BuildFilename(p))) == p
  {
    PrintParse(p);
  }

  // ----- the documented form -----

  /** A further digit multiplies by ten. */
  lemma ValueStep(digits: string, c: char)
    requires AllDigits(digits) && '0' <= c <= '9'
    ensures AllDigits(digits + [c]) && Value(digits + [c]) == 10 * Value(digits) + (c as int - '0' as int)
    ensures Value("") == 0
  {
    assert (digits + [c])[..|digits|] == digits;
  }

  /** Numbers too large for an int are read as the largest one. */
  lemma AtoiIs(digits: string)
    requires AllDigits(digits)
    ensures Atoi(digits) == if Value(digits) <= 9223372036854775807 then Value(digits) else 9223372036854775807
  {
  }

  /** An indexed name with a suffix is slug, dash, number, dash, suffix. */
  lemma IndexedName(p: Parts, digits: string)
    requires p.index > 0 && digits == Decimal(p.index)
    ensures BuildFilename(p) == p.slug + "-" + digits + (if p.suffix != "" then "-" + p.suffix else "") + ".md"
  {
    if p.suffix != "" {
      assert p.slug + "-" + digits + "-" + p.suffix == p.slug + "-" + digits + ("-" + p.suffix);
    } else {
      assert p.slug + "-" + digits + "" == p.slug + "-" + digits;
    }
  }
}
