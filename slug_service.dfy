/** `SlugService`: product and category slugs built from a sanitised name. */
module SlugService {
  import opened Base
  import opened SlugText

  /** The longest sanitised product name kept in a product slug. */
  const MaxBaseLength := 50
  /** How much of the product id is appended. */
  const IdPrefixLength := 8

  /** The class `[a-z0-9\s]` of characters `sanitize` keeps. */
  predicate IsKept(c: char) {
    IsSlugLetter(c) || IsRegexSpace(c)
  }

  /** `sanitize`: lower-case, delete every character outside `[a-z0-9\s]` (hyphens
      included), then turn each run of whitespace into one hyphen. Nothing is trimmed. */
  function Sanitize(input: string): string {
    Collapse(Retain(Lower(input), IsKept), IsRegexSpace, false)
  }

  /** A sanitised name holds only `a`-`z`, `0`-`9` and `-`, never two adjacent hyphens, and
      starts (ends) with a hyphen when the input starts (ends) with whitespace. */
  lemma SanitizeShape(input: string)
    ensures var r := Sanitize(input);
      && (forall i :: 0 <= i < |r| ==> IsSlugChar(r[i]))
      && NoDoubleHyphen(r)
      && (input != [] && IsRegexSpace(input[0]) ==> r != [] && r[0] == '-')
      && (input != [] && IsRegexSpace(input[|input| - 1]) ==> r != [] && r[|r| - 1] == '-')
  {
    var kept := Retain(Lower(input), IsKept);
    CollapseShape(kept, IsRegexSpace, false);
    CollapseKeeps(kept, IsRegexSpace, false, IsKept);
    SanitizeEnds(input);
  }

  /** Whitespace at either end of the name survives the deletion step and becomes a
      hyphen at that end. */
  lemma SanitizeEnds(input: string)
    ensures var r := Sanitize(input);
      && (input != [] && IsRegexSpace(input[0]) ==> r != [] && r[0] == '-')
      && (input != [] && IsRegexSpace(input[|input| - 1]) ==> r != [] && r[|r| - 1] == '-')
  {
    var lowered := Lower(input);
    var kept := Retain(lowered, IsKept);
    RetainEnds(lowered, IsKept);
    if input != [] && IsRegexSpace(input[0]) {
      CollapseLeading(kept, IsRegexSpace);
    }
    if input != [] && IsRegexSpace(input[|input| - 1]) {
      CollapseTrailing(kept, IsRegexSpace, false);
    }
  }

  /** `generateProductSlug`: the sanitised name cut to 50 characters, a hyphen, and the
      first 8 characters of the product id when it has at least 8, nothing otherwise. */
  function GenerateProductSlug(productName: string, productId: Option<string>): (r: string)
    ensures var base := Sanitize(productName);
      var cut := if |base| > MaxBaseLength then MaxBaseLength else |base|;
      var suffix := if productId.Some? && |productId.value| >= IdPrefixLength
                    then productId.value[..IdPrefixLength] else "";
      && |r| == cut + 1 + |suffix| <= MaxBaseLength + 1 + IdPrefixLength
      && r[..cut] == base[..cut]
      && r[cut] == '-'
      && r[cut + 1..] == suffix
  {
    var base := Sanitize(productName);
    var cut := if |base| > MaxBaseLength then MaxBaseLength else |base|;
    base[..cut] + "-"
      + (if productId.Some? && |productId.value| >= IdPrefixLength
         then productId.value[..IdPrefixLength] else "")
  }

  /** The part before the final hyphen and suffix is a well-formed slug prefix. */
  lemma ProductSlugBase(productName: string, productId: Option<string>)
    ensures var base := Sanitize(productName);
      var cut := if |base| > MaxBaseLength then MaxBaseLength else |base|;
      var r := GenerateProductSlug(productName, productId);
      && NoDoubleHyphen(r[..cut])
      && forall i :: 0 <= i < cut ==> IsSlugChar(r[i])
  {
    var base := Sanitize(productName);
    var cut := if |base| > MaxBaseLength then MaxBaseLength else |base|;
    SanitizeShape(productName);
    PrefixKeepsShape(base, cut);
  }

  /** The joining hyphen is added even when the sanitised name already ends with one, so
      a product slug can hold two adjacent hyphens, and a missing or short id leaves a
      trailing hyphen. */
  lemma ProductSlugCanDoubleHyphen()
    ensures GenerateProductSlug("a ", None) == "a--"
    ensures GenerateProductSlug("a", Some("1234567")) == "a-"
  {
    assert Lower("a ") == "a ";
    assert Retain("a ", IsKept) == "a ";
    assert Collapse(" ", IsRegexSpace, false) == "-";
    assert "a "[1..] == " ";
    assert Collapse("a ", IsRegexSpace, false) == "a-";
    assert Lower("a") == "a";
    assert Retain("a", IsKept) == "a";
    assert Sanitize("a") == "a";
  }

  /** `generateCategorySlug`: the parent slug, a slash and the sanitised name when the
      parent slug is non-null and not blank; the sanitised name alone otherwise. */
  function GenerateCategorySlug(categoryName: string, parentSlug: Option<string>): (r: string)
    ensures parentSlug.Some? && !IsBlank(parentSlug.value) ==>
      |r| == |parentSlug.value| + 1 + |Sanitize(categoryName)|
      && r[..|parentSlug.value|] == parentSlug.value && r[|parentSlug.value|] == '/'
      && r[|parentSlug.value| + 1..] == Sanitize(categoryName)
    ensures parentSlug.None? || IsBlank(parentSlug.value) ==> r == Sanitize(categoryName)
  {
    var slug := Sanitize(categoryName);
    if parentSlug.Some? && !IsBlank(parentSlug.value) then parentSlug.value + "/" + slug else slug
  }

  /** The sanitised name holds no slash, so the text after the last slash of a category slug
      is the sanitised category name, and the text before it is the parent slug. */
  lemma {:induction false} CategorySlugLastSegment(categoryName: string, parent: string)
    requires !IsBlank(parent)
    ensures var r := GenerateCategorySlug(categoryName, Some(parent));
      && '/' !in Sanitize(categoryName)
      && r[|parent|] == '/'
      && (forall i :: |parent| < i < |r| ==> r[i] != '/')
      && r[..|parent|] == parent
  {
    var s := Sanitize(categoryName);
    SanitizeShape(categoryName);
    assert forall i :: 0 <= i < |s| ==> s[i] != '/';
    var r := GenerateCategorySlug(categoryName, Some(parent));
    assert forall i :: |parent| < i < |r| ==> r[i] == s[i - |parent| - 1];
  }
}
