/**
 * `DisplayableTextFilter`: replaces "zalgo" text, whose characters pile up
 * combining marks, by its diacritic-insensitive folding.
 *
 * A text is a sequence of characters (extended grapheme clusters), each a
 * non-empty sequence of Unicode scalar values. Segmentation into characters
 * and the folding itself belong to the platform; the folding is a parameter.
 */
module DisplayableTextFilter {
  import opened Basics

  /** A Unicode scalar value: a code point that is not a surrogate. */
  type Scalar = n: int | 0 <= n <= 0x10FFFF && !(0xD800 <= n <= 0xDFFF)

  /** A user-perceived character: one or more scalars. */
  type Character = c: seq<Scalar> | |c| >= 1 witness [0]

  type Text = seq<Character>

  /** A character with more scalars than this is taken as excessive. */
  const MaxScalarsPerCharacter: nat := 4

  /** The property the filter looks for: some character has more than four scalars. */
  ghost predicate SomeCharacterExcessive(text: Text) {
    exists i | 0 <= i < |text| :: |text[i]| > MaxScalarsPerCharacter
  }

  /**
   * `hasExcessiveDiacriticals(text:)`: scans the characters in order and
   * answers true at the first one with more than four scalars.
   */
  function HasExcessiveDiacriticals(text: Text): (r: bool)
    ensures r <==> SomeCharacterExcessive(text)
  {
    if |text| == 0 then false
    else if |text[0]| > MaxScalarsPerCharacter then true
    else
      var rest := HasExcessiveDiacriticals(text[1..]);
      assert forall i | 1 <= i < |text| :: text[i] == text[1..][i - 1];
      rest
  }

  /**
   * `displayableText(_:)`: nil stays nil, text with an excessive character is
   * replaced by its folding, and any other text is returned unchanged.
   */
  function DisplayableText(text: Option<Text>, fold: Text -> Text): (r: Option<Text>)
    ensures text.None? <==> r.None?
    ensures text.Some? && !SomeCharacterExcessive(text.value) ==> r == text
    ensures text.Some? && SomeCharacterExcessive(text.value) ==> r == Some(fold(text.value))
  {
    match text
    case None => None
    case Some(t) => if HasExcessiveDiacriticals(t) then Some(fold(t)) else Some(t)
  }

  // ---------------------------------------------------------------------------
  // Properties

  /** The empty text is never excessive, so it is shown as it is. */
  lemma EmptyTextIsKept(fold: Text -> Text)
    ensures !HasExcessiveDiacriticals([])
    ensures DisplayableText(Some([]), fold) == Some([])
  {
  }

  /** Characters of up to four scalars, however many of them, never trigger the filter. */
  lemma FourScalarsAreTolerated(text: Text, fold: Text -> Text)
    requires forall i | 0 <= i < |text| :: |text[i]| <= MaxScalarsPerCharacter
    ensures DisplayableText(Some(text), fold) == Some(text)
  {
  }

  /**
   * The verdict depends only on whether an excessive character exists, not on
   * where: a text joined from two parts is excessive iff either part is.
   */
  lemma {:induction false} ExcessiveIffSomePartIs(a: Text, b: Text)
    ensures HasExcessiveDiacriticals(a + b) <==> HasExcessiveDiacriticals(a) || HasExcessiveDiacriticals(b)
  {
    if HasExcessiveDiacriticals(a) {
      var i :| 0 <= i < |a| && |a[i]| > MaxScalarsPerCharacter;
      assert (a + b)[i] == a[i];
    } else if HasExcessiveDiacriticals(b) {
      var i :| 0 <= i < |b| && |b[i]| > MaxScalarsPerCharacter;
      assert (a + b)[|a| + i] == b[i];
    } else {
      forall j | 0 <= j < |a + b| ensures |(a + b)[j]| <= MaxScalarsPerCharacter {
        if j < |a| {
          assert (a + b)[j] == a[j];
        } else {
          assert (a + b)[j] == b[j - |a|];
        }
      }
    }
  }

  /** Filtering is idempotent whenever the folding leaves no excessive character. */
  lemma FilterIdempotent(text: Text, fold: Text -> Text)
    requires !HasExcessiveDiacriticals(fold(text))
    ensures DisplayableText(DisplayableText(Some(text), fold), fold) == DisplayableText(Some(text), fold)
  {
  }
}
