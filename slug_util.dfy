/** `SlugUtil.toSlug`: the slug a category gets from its name, made of a cleaned-up body
    of at most 40 characters and the first 8 characters of a random UUID. */
module SlugUtil {
  import opened Base
  import opened SlugText

  /** The longest body kept before the suffix. */
  const MaxBodyLength := 40
  /** How much of the random UUID text is appended. */
  const SuffixLength := 8

  /** The class `[a-z0-9\s-]` of characters that survive the clean-up. */
  predicate IsKept(c: char) {
    IsSlugLetter(c) || IsRegexSpace(c) || c == '-'
  }

  /** The class `[\s-]` whose runs become one hyphen. */
  predicate IsSeparator(c: char) {
    IsRegexSpace(c) || c == '-'
  }

  /** The body of the slug: lower-cased, reduced to the kept characters, trimmed, each
      run of whitespace and hyphens replaced by one hyphen, and cut to 40 characters. It
      holds only `a`-`z`, `0`-`9` and `-` (so no whitespace) and no two adjacent hyphens. */
  function Body(input: string): (b: string)
    ensures |b| <= MaxBodyLength
    ensures forall i :: 0 <= i < |b| ==> IsSlugChar(b[i])
    ensures NoDoubleHyphen(b)
  {
    var kept := Retain(Lower(input), IsKept);
    var trimmed := Trim(kept);
    TrimKeeps(kept, IsKept);
    var collapsed := Collapse(trimmed, IsSeparator, false);
    CollapseShape(trimmed, IsSeparator, false);
    CollapseKeeps(trimmed, IsSeparator, false, IsKept);
    var cut := if |collapsed| > MaxBodyLength then MaxBodyLength else |collapsed|;
    PrefixKeepsShape(collapsed, cut);
    collapsed[..cut]
  }

  /** `toSlug(input)` with `random` the text of the UUID it generates: `""` for a null
      input, otherwise the body, a hyphen and the first 8 characters of the UUID, which
      makes at most 49 characters. */
  function ToSlug(input: Option<string>, random: UuidText): (r: string)
    ensures input.None? ==> r == ""
    ensures input.Some? ==>
      && |r| <= MaxBodyLength + 1 + SuffixLength
      && |r| == |Body(input.value)| + 1 + SuffixLength
      && r[..|r| - SuffixLength - 1] == Body(input.value)
      && r[|r| - SuffixLength - 1] == '-'
      && r[|r| - SuffixLength..] == random[..SuffixLength]
  {
    if input.None? then ""
    else
      var suffix := random[..SuffixLength];
      assert |suffix| == SuffixLength;
      Body(input.value) + "-" + suffix
  }

  /** A slug of a non-null input splits back into its body and the UUID prefix, so two slugs
      made from the same name differ whenever the 8-character UUID prefixes differ. */
  lemma SuffixDistinguishes(name: string, u1: UuidText, u2: UuidText)
    requires u1[..SuffixLength] != u2[..SuffixLength]
    ensures ToSlug(Some(name), u1) != ToSlug(Some(name), u2)
  {
    var r1, r2 := ToSlug(Some(name), u1), ToSlug(Some(name), u2);
    assert r1[|r1| - SuffixLength..] != r2[|r2| - SuffixLength..];
  }

  /** The suffix is lower-case hex, so the whole slug is made of slug characters. */
  lemma {:induction false} SlugCharacters(input: string, random: UuidText)
    ensures var r := ToSlug(Some(input), random);
      forall i :: 0 <= i < |r| ==> IsSlugChar(r[i])
  {
    var b, suffix := Body(input), random[..SuffixLength];
    UuidFirstGroupIsHex(random);
    assert forall j :: 0 <= j < |suffix| ==> IsHexDigit(suffix[j]);
    JoinKeepsSlugChars(b, suffix);
  }

  /** Joining two runs of slug characters with a hyphen gives slug characters. */
  lemma JoinKeepsSlugChars(b: string, suffix: string)
    requires forall i :: 0 <= i < |b| ==> IsSlugChar(b[i])
    requires forall i :: 0 <= i < |suffix| ==> IsSlugChar(suffix[i])
    ensures var r := b + "-" + suffix; forall i :: 0 <= i < |r| ==> IsSlugChar(r[i])
  {
    var r := b + "-" + suffix;
    forall i | 0 <= i < |r|
      ensures IsSlugChar(r[i])
    {
      if i < |b| {
        assert r[i] == b[i];
      } else if i > |b| {
        assert r[i] == suffix[i - |b| - 1];
      }
    }
  }
}
