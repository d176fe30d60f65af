/** `titleFromSlug`: a route slug (a string, an array of strings from a
    catch-all route, or nothing) turned into a display title. */
module TitleFromSlug {
  import opened Strings

  datatype Slug = SlugText(text: string) | SlugParts(parts: seq<string>) | NoSlug

  /** The string the title is built from: a string as is, an array joined with
      "-", and "" otherwise. */
  function SlugString(slug: Slug): (r: string)
    ensures slug.SlugText? ==> r == slug.text
    ensures slug.NoSlug? || slug == SlugParts([]) ==> r == ""
    ensures slug.SlugParts? && |slug.parts| >= 1 ==> StartsWith(r, slug.parts[0])
  {
    match slug
    case SlugText(s) => s
    case SlugParts(parts) => Join(parts, "-")
    case NoSlug => ""
  }

  /** The position `i` of `s` is matched by `\b\w`: a word character at the
      start or after a non-word character. */
  predicate IsWordStart(s: string, i: nat)
    requires i < |s|
  {
    IsWordChar(s[i]) && (i == 0 || !IsWordChar(s[i - 1]))
  }

  /** `s.replace(/\b\w/g, c => c.toUpperCase())`, scanning left to right;
      `afterWord` says whether the character before `s` was a word character. */
  function CapitalizeWords(s: string, afterWord: bool): (r: string)
    ensures |r| == |s|
  {
    if s == [] then []
    else
      [if IsWordChar(s[0]) && !afterWord then UpperChar(s[0]) else s[0]]
      + CapitalizeWords(s[1..], IsWordChar(s[0]))
  }

  function TitleFromSlug(slug: Slug): (r: string)
    ensures |r| == |SlugString(slug)|
  {
    CapitalizeWords(ReplaceChar(SlugString(slug), '-', ' '), false)
  }

  // ---------------------------------------------------------------------------
  // Properties

  /** The scan upper-cases exactly the word starts. */
  lemma {:induction false} CapitalizeWordsAt(s: string, afterWord: bool, i: nat)
    requires i < |s|
    ensures CapitalizeWords(s, afterWord)[i]
            == if IsWordChar(s[i]) && (if i == 0 then !afterWord else !IsWordChar(s[i - 1]))
               then UpperChar(s[i]) else s[i]
  {
    if i > 0 {
      CapitalizeWordsAt(s[1..], IsWordChar(s[0]), i - 1);
      if i > 1 {
        assert s[1..][i - 2] == s[i - 1];
      }
    }
  }

  /** The title has the length of the slug string; each "-" becomes a space, each
      word start is upper-cased and every other character is kept. */
  lemma TitleChars(slug: Slug)
    ensures var str, t, r := SlugString(slug), ReplaceChar(SlugString(slug), '-', ' '), TitleFromSlug(slug);
      && |r| == |str|
      && forall i :: 0 <= i < |r| ==>
           r[i] == (if IsWordStart(t, i) then UpperChar(t[i]) else t[i])
  {
    var t := ReplaceChar(SlugString(slug), '-', ' ');
    forall i | 0 <= i < |t|
      ensures TitleFromSlug(slug)[i] == (if IsWordStart(t, i) then UpperChar(t[i]) else t[i])
    {
      CapitalizeWordsAt(t, false, i);
    }
  }

  /** The title has no "-", and a character changes exactly when it is a "-"
      or a lower-case ASCII letter at a word start. */
  lemma TitleChanges(slug: Slug)
    ensures var str, t, r := SlugString(slug), ReplaceChar(SlugString(slug), '-', ' '), TitleFromSlug(slug);
      && '-' !in r
      && forall i :: 0 <= i < |r| ==>
           (r[i] != str[i] <==> str[i] == '-' || (IsWordStart(t, i) && 'a' <= str[i] <= 'z'))
  {
    TitleChars(slug);
  }

  /** An array slug reads as its "-"-joined string; an empty array gives "". */
  lemma PartsAreJoined(parts: seq<string>)
    ensures TitleFromSlug(SlugParts(parts)) == TitleFromSlug(SlugText(Join(parts, "-")))
    ensures TitleFromSlug(SlugParts([])) == "" && TitleFromSlug(NoSlug) == ""
  {
  }

  /** The parts of a catch-all slug come back from its string by splitting at
      "-" when none of them holds a "-". */
  lemma SlugPartsRecovered(parts: seq<string>)
    requires |parts| >= 1
    requires forall k :: 0 <= k < |parts| ==> '-' !in parts[k]
    ensures Split(SlugString(SlugParts(parts)), '-') == parts
  {
    SplitJoin(parts, '-');
  }

  /** Making a title of a title changes nothing. */
  lemma Idempotent(slug: Slug)
    ensures TitleFromSlug(SlugText(TitleFromSlug(slug))) == TitleFromSlug(slug)
  {
    var t := ReplaceChar(SlugString(slug), '-', ' ');
    var r := TitleFromSlug(slug);
    TitleChanges(slug);
    TitleChars(slug);
    var t2 := ReplaceChar(r, '-', ' ');
    assert t2 == r;
    TitleChars(SlugText(r));
    assert forall i :: 0 <= i < |r| ==> IsWordChar(r[i]) == IsWordChar(t[i]);
    forall i | 0 <= i < |r|
      ensures TitleFromSlug(SlugText(r))[i] == r[i]
    {
      assert IsWordStart(t2, i) == IsWordStart(t, i);
    }
  }
}
