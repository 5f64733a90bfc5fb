/** The string steps shared by the two slug builders: ASCII lower-casing, the regular
    expression character classes they use, deletion of characters, Java's `trim`, and the
    replacement of every run of separator characters by a single hyphen. */
module SlugText {

  /** A character of the regular-expression class `\s`: space, tab, line feed, vertical
      tab, form feed or carriage return. */
  predicate IsRegexSpace(c: char) {
    c == ' ' || c == '\t' || c == '\n' || c == '\U{000B}' || c == '\U{000C}' || c == '\r'
  }

  /** A character a slug may hold besides the hyphen: `a`-`z` or `0`-`9`. */
  predicate IsSlugLetter(c: char) {
    'a' <= c <= 'z' || '0' <= c <= '9'
  }

  /** A character of a well-formed slug. */
  predicate IsSlugChar(c: char) {
    IsSlugLetter(c) || c == '-'
  }

  /** No two adjacent hyphens. */
  predicate NoDoubleHyphen(s: string) {
    forall i :: 0 <= i < |s| - 1 ==> !(s[i] == '-' && s[i + 1] == '-')
  }

  /** `Character.isWhitespace`: the Unicode space separators other than the no-break
      spaces, the line and paragraph separators, and the controls 9-13 and 28-31. */
  predicate IsJavaWhitespace(c: char) {
    || c == ' ' || ('\t' <= c <= '\r') || ('\U{001C}' <= c <= '\U{001F}')
    || c == '\U{1680}' || ('\U{2000}' <= c <= '\U{2006}') || ('\U{2008}' <= c <= '\U{200A}')
    || c == '\U{2028}' || c == '\U{2029}' || c == '\U{205F}' || c == '\U{3000}'
  }

  /** `String.isBlank`: empty or only `Character.isWhitespace` characters. */
  predicate IsBlank(s: string) {
    forall i :: 0 <= i < |s| ==> IsJavaWhitespace(s[i])
  }

  /** `Character.toLowerCase` on ASCII: `A`-`Z` map to `a`-`z`, everything else is kept. */
  function LowerChar(c: char): (d: char)
    ensures 'A' <= c <= 'Z' ==> 'a' <= d <= 'z'
    ensures !('A' <= c <= 'Z') ==> d == c
  {
    if 'A' <= c <= 'Z' then (c as int + 32) as char else c
  }

  /** `String.toLowerCase`, character by character. */
  function Lower(s: string): (r: string)
    ensures |r| == |s|
    ensures forall i :: 0 <= i < |s| ==> r[i] == LowerChar(s[i])
    ensures forall i :: 0 <= i < |s| ==> !('A' <= r[i] <= 'Z')
  {
    if s == [] then [] else [LowerChar(s[0])] + Lower(s[1..])
  }

  /** `replaceAll("[^...]", "")`: the characters of `s` that `keep` accepts, in order. */
  function Retain(s: string, keep: char -> bool): (r: string)
    ensures |r| <= |s|
    ensures forall i :: 0 <= i < |r| ==> keep(r[i])
  {
    if s == [] then []
    else
      var rest := Retain(s[1..], keep);
      if keep(s[0]) then [s[0]] + rest else rest
  }

  /** Deletion keeps exactly the accepted characters: every character of the result comes
      from the input, and every accepted character of the input is in the result. */
  lemma {:induction false} RetainMembers(s: string, keep: char -> bool)
    ensures var r := Retain(s, keep);
      && (forall i :: 0 <= i < |r| ==> r[i] in s)
      && (forall i :: 0 <= i < |s| && keep(s[i]) ==> s[i] in r)
  {
    if s != [] {
      RetainMembers(s[1..], keep);
      assert forall i :: 1 <= i < |s| ==> s[i] == s[1..][i - 1];
    }
  }

  /** Deletion works character by character, in order: nothing is kept of an empty text, a
      single character is kept exactly when the class accepts it, and the kept characters
      of a concatenation are those of its first part followed by those of its second. */
  lemma {:induction false} RetainAppend(s: string, t: string, keep: char -> bool)
    ensures Retain([], keep) == []
    ensures forall c :: Retain([c], keep) == if keep(c) then [c] else []
    ensures Retain(s + t, keep) == Retain(s, keep) + Retain(t, keep)
  {
    assert forall c: char :: [c][1..] == [];
    if s != [] {
      assert (s + t)[1..] == s[1..] + t;
      RetainAppend(s[1..], t, keep);
    } else {
      assert s + t == t;
    }
  }

  /** Where `String.trim`'s forward scan from `st` stops: at the first character above
      U+0020, or at the end. */
  function TrimStartIndex(s: string, st: nat): (k: nat)
    requires st <= |s|
    ensures st <= k <= |s|
    ensures forall i :: st <= i < k ==> s[i] <= ' '
    ensures k == |s| || s[k] > ' '
    decreases |s| - st
  {
    if st < |s| && s[st] <= ' ' then TrimStartIndex(s, st + 1) else st
  }

  /** Where the backward scan from `len` stops, never passing `st`: just after the last
      character above U+0020, or at `st`. */
  function TrimEndIndex(s: string, st: nat, len: nat): (k: nat)
    requires st <= len <= |s|
    ensures st <= k <= len
    ensures forall i :: k <= i < len ==> s[i] <= ' '
    ensures k == st || s[k - 1] > ' '
  {
    if st < len && s[len - 1] <= ' ' then TrimEndIndex(s, st, len - 1) else len
  }

  /** `r` is the slice of `s` from `a`, and everything outside it is at most U+0020. */
  predicate TrimmedAt(s: string, a: int, r: string) {
    && 0 <= a <= a + |r| <= |s| && r == s[a..a + |r|]
    && (forall i :: 0 <= i < a ==> s[i] <= ' ')
    && (forall i :: a + |r| <= i < |s| ==> s[i] <= ' ')
  }

  /** `String.trim`: the slice of `s` left after dropping the leading and trailing
      characters up to U+0020. Only such characters are dropped, only from the two ends, and
      the slice neither starts nor ends with one. */
  function Trim(s: string): (r: string)
    ensures |r| <= |s|
    ensures r == [] || (r[0] > ' ' && r[|r| - 1] > ' ')
    ensures TrimmedAt(s, TrimStartIndex(s, 0), r)
  {
    var st := TrimStartIndex(s, 0);
    s[st..TrimEndIndex(s, st, |s|)]
  }

  /** The trimmed slice is unique: any slice of `s` that satisfies the promises of `trim`
      is the one `Trim` returns. */
  lemma TrimUnique(s: string, a: int, r: string)
    requires TrimmedAt(s, a, r) && (r == [] || (r[0] > ' ' && r[|r| - 1] > ' '))
    ensures r == Trim(s)
  {
  }

  /** Trimming only removes characters: whatever holds of every character of the input
      holds of every character of the result. */
  lemma TrimKeeps(s: string, p: char -> bool)
    requires forall i :: 0 <= i < |s| ==> p(s[i])
    ensures forall i :: 0 <= i < |Trim(s)| ==> p(Trim(s)[i])
  {
  }

  /** `replaceAll("[...]+", "-")` where the class holds the characters `sep` accepts: each
      maximal run of separators becomes one hyphen. `inRun` says that the character before
      `s` was a separator, so that a run continuing into `s` adds no second hyphen. */
  function Collapse(s: string, sep: char -> bool, inRun: bool): string {
    if s == [] then []
    else if sep(s[0]) then (if inRun then [] else ['-']) + Collapse(s[1..], sep, true)
    else [s[0]] + Collapse(s[1..], sep, false)
  }

  /** When every hyphen of the input is itself a separator, the collapsed text holds no
      two adjacent hyphens, does not start with a hyphen when the input continues a run,
      and is no longer than the input. */
  lemma {:induction false} CollapseShape(s: string, sep: char -> bool, inRun: bool)
    requires forall i :: 0 <= i < |s| && s[i] == '-' ==> sep(s[i])
    ensures var r := Collapse(s, sep, inRun);
      && NoDoubleHyphen(r)
      && (inRun ==> r == [] || r[0] != '-')
      && |r| <= |s|
  {
    if s != [] {
      assert forall i :: 1 <= i < |s| ==> s[i] == s[1..][i - 1];
      var tail := Collapse(s[1..], sep, sep(s[0]));
      CollapseShape(s[1..], sep, sep(s[0]));
      var r := Collapse(s, sep, inRun);
      if !(sep(s[0]) && inRun) {
        var h := if sep(s[0]) then '-' else s[0];
        assert r == [h] + tail;
        assert h == '-' ==> tail == [] || tail[0] != '-';
        assert forall i :: 1 <= i < |r| ==> r[i] == tail[i - 1];
      }
    }
  }

  /** Every character of `r` is a hyphen, or a non-separator that satisfies `p`. */
  predicate HyphensOr(r: string, sep: char -> bool, p: char -> bool) {
    forall i :: 0 <= i < |r| ==> r[i] == '-' || (p(r[i]) && !sep(r[i]))
  }

  /** Collapsing adds only hyphens: whatever holds of every input character holds of every
      character of the result other than the hyphens that replace separator runs. */
  lemma {:induction false} CollapseKeeps(s: string, sep: char -> bool, inRun: bool, p: char -> bool)
    requires forall i :: 0 <= i < |s| ==> p(s[i])
    ensures HyphensOr(Collapse(s, sep, inRun), sep, p)
  {
    if s != [] {
      assert forall i :: 1 <= i < |s| ==> s[i] == s[1..][i - 1];
      var tail := Collapse(s[1..], sep, sep(s[0]));
      CollapseKeeps(s[1..], sep, sep(s[0]), p);
      var r := Collapse(s, sep, inRun);
      if !(sep(s[0]) && inRun) {
        var h := if sep(s[0]) then '-' else s[0];
        assert r == [h] + tail;
        assert forall i :: 1 <= i < |r| ==> r[i] == tail[i - 1];
      }
    }
  }

  /** A separator at the start of the input outside a run gives a leading hyphen. */
  lemma CollapseLeading(s: string, sep: char -> bool)
    requires s != [] && sep(s[0])
    ensures var r := Collapse(s, sep, false); r != [] && r[0] == '-'
  {
  }

  /** A separator at the end of the input gives a trailing hyphen (unless the whole input
      continues a run, which gives nothing). */
  lemma {:induction false} CollapseTrailing(s: string, sep: char -> bool, inRun: bool)
    requires s != [] && sep(s[|s| - 1])
    ensures var r := Collapse(s, sep, inRun);
      && (r != [] ==> r[|r| - 1] == '-')
      && (!inRun ==> r != [])
  {
    if |s| > 1 {
      assert s[1..][|s[1..]| - 1] == s[|s| - 1];
      CollapseTrailing(s[1..], sep, sep(s[0]));
    }
  }

  /** Cutting a prefix keeps the absence of adjacent hyphens and the character set. */
  lemma PrefixKeepsShape(s: string, n: nat)
    requires n <= |s| && NoDoubleHyphen(s) && forall i :: 0 <= i < |s| ==> IsSlugChar(s[i])
    ensures NoDoubleHyphen(s[..n]) && forall i :: 0 <= i < n ==> IsSlugChar(s[..n][i])
  {
  }

  /** A kept first (last) character stays first (last). */
  lemma {:induction false} RetainEnds(s: string, keep: char -> bool)
    ensures s != [] && keep(s[0]) ==> Retain(s, keep) != [] && Retain(s, keep)[0] == s[0]
    ensures s != [] && keep(s[|s| - 1]) ==>
      var r := Retain(s, keep); r != [] && r[|r| - 1] == s[|s| - 1]
  {
    if |s| > 1 {
      assert s[1..][|s[1..]| - 1] == s[|s| - 1];
      RetainEnds(s[1..], keep);
    }
  }
}
