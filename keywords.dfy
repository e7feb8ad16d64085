/**
 * The reserved-word table of src/lexing.cpp against the fixed spellings
 * of the keyword kinds.
 */
module Keywords {
  import opened Tokens
  import opened Lexing

  /** Every entry of the table is a keyword kind under its own spelling. */
  lemma ReservedWordsAreKeywords(s: string)
    requires s in ReservedWords
    ensures IsKeyword(ReservedWords[s]) && KeywordSpelling(ReservedWords[s]) == s
  {
  }

  /** Every keyword kind is in the table under its spelling. */
  lemma KeywordsAreReserved(k: TokenKind)
    requires IsKeyword(k)
    ensures KeywordSpelling(k) in ReservedWords && ReservedWords[KeywordSpelling(k)] == k
  {
  }

  /** The table spells `Fun` as "function": "fun" is not reserved. */
  lemma FunIsNotReserved()
    ensures "fun" !in ReservedWords
    ensures ReservedWords["function"] == Fun
  {
  }

  /** A word is an identifier exactly when it is not a reserved word;
      otherwise it is the keyword kind that is spelled as the word. */
  lemma WordKindSpec(word: string)
    ensures WordKind(word) == Identifier <==> word !in ReservedWords
    ensures WordKind(word) != Identifier ==> IsKeyword(WordKind(word)) && KeywordSpelling(WordKind(word)) == word
  {
    if word in ReservedWords {
      ReservedWordsAreKeywords(word);
    }
  }
}
