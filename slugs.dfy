/**
 * The admin controllers' `GenerateSlug` (the same expression appears in the
 * loan, bank and blog controllers, and inline in the loan-type controller):
 * every space and every ZERO WIDTH NON-JOINER becomes '-', then the text is
 * lower-cased. A submitted slug that is null, empty or white space is
 * replaced by the slug generated from the title or name.
 */
module Slugs {
  import opened Optional
  import opened Text

  /** U+200C ZERO WIDTH NON-JOINER, which Persian text uses inside words. */
  const Zwnj: char := '\U{200C}'

  /** What `GenerateSlug` makes of one character. */
  function SlugChar(c: char): char {
    if c == ' ' || c == Zwnj then '-' else LowerChar(c)
  }

  /** `name.Replace(" ", "-").Replace("‌", "-").ToLowerInvariant()`: a character-by-character map. */
  function GenerateSlug(name: string): (r: string)
    ensures |r| == |name|
    ensures forall i :: 0 <= i < |name| ==> r[i] == SlugChar(name[i])
  {
    var spaced := Replace(name, " ", "-");
    ReplaceChar(name, ' ', '-');
    var joined := Replace(spaced, [Zwnj], "-");
    ReplaceChar(spaced, Zwnj, '-');
    Lower(joined)
  }

  /** A generated slug has neither spaces nor ZWNJs and no ASCII capitals. */
  lemma GenerateSlugClean(name: string)
    ensures forall i :: 0 <= i < |GenerateSlug(name)| ==>
      GenerateSlug(name)[i] != ' ' && GenerateSlug(name)[i] != Zwnj && !IsAsciiUpper(GenerateSlug(name)[i])
  {
  }

  /** Generating a slug from a slug changes nothing. */
  lemma GenerateSlugIdempotent(name: string)
    ensures GenerateSlug(GenerateSlug(name)) == GenerateSlug(name)
  {
    var once := GenerateSlug(name);
    var twice := GenerateSlug(once);
    forall i | 0 <= i < |name| ensures twice[i] == once[i] {
      assert once[i] != ' ' && once[i] != Zwnj;
    }
  }

  /** `string.IsNullOrWhiteSpace` of a posted field. */
  predicate IsBlank(s: string) {
    IsNullOrWhiteSpace(Some(s))
  }

  /** The slug a create or edit form goes on with. */
  function ChosenSlug(slug: string, name: string): string {
    if IsBlank(slug) then GenerateSlug(name) else slug
  }
}
