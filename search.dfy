/** The case-insensitive text search both list screens apply to their records. */
module Search {
  import opened Text

  /** `text.toLowerCase().includes(term.toLowerCase())`. */
  predicate MatchesSearch(text: string, term: string) {
    Contains(ToLower(text), ToLower(term))
  }

  /** The empty search term matches every text. */
  lemma EmptyTermMatches(text: string)
    ensures MatchesSearch(text, "")
  {
  }

  /**
    Whether a text matches a term does not depend on the casing of either:
    recasing any letters of the text and of the term keeps the answer.
  */
  lemma SearchIgnoresCase(text1: string, text2: string, term1: string, term2: string)
    requires SameIgnoringCase(text1, text2) && SameIgnoringCase(term1, term2)
    ensures MatchesSearch(text1, term1) == MatchesSearch(text2, term2)
  {
    SameIgnoringCaseIffSameLower(text1, text2);
    SameIgnoringCaseIffSameLower(term1, term2);
  }

  /** In particular, upper-casing or lower-casing the text or the term keeps the answer. */
  lemma SearchIgnoresUpperAndLower(text: string, term: string)
    ensures MatchesSearch(ToUpper(text), term) == MatchesSearch(text, term)
    ensures MatchesSearch(text, ToUpper(term)) == MatchesSearch(text, term)
    ensures MatchesSearch(ToLower(text), ToLower(term)) == MatchesSearch(text, term)
  {
    ToLowerIgnoresCasing(text);
    ToLowerIgnoresCasing(term);
  }
}
