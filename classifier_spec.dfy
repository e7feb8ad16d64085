/**
 * `scan_token` (src/lexing.cpp) against the reference grammar: the lexeme
 * it classifies is well formed and cannot be extended, no other lexeme is
 * both, and it reports an invalid token exactly when no lexeme starts the
 * view.
 */
module ClassifierSpec {
  import opened Tokens
  import opened Lexing
  import opened Keywords
  import opened LexingSpec

  /** The classification of `code` is a well-formed lexeme that cannot be
      extended, unless it is an invalid token. */
  predicate SoundAt(code: string)
    requires |code| > 0
  {
    var c := ScanToken(code);
    c.kind != Invalid ==> WellFormed(c.kind, code[..c.size]) && Longest(c.kind, code, c.size)
  }

  // ---------------------------------------------------------------------
  // Which branch of the classifier a first character selects
  // ---------------------------------------------------------------------

  lemma ClassifySpace(code: string)
    requires |code| > 0 && IsSpace(code[0])
    ensures ScanToken(code) == Classification(Space, SpaceSize(code).0, SpaceSize(code).1)
  {
  }

  lemma ClassifyOther(code: string)
    requires |code| > 0 && !(code[0] in "(){},.-+;*!=<>/\"") && !IsSpace(code[0])
    ensures ScanToken(code) == ScanOther(code)
  {
  }

  lemma ClassifyNumber(code: string)
    requires |code| > 0 && IsDigit(code[0])
    ensures ScanToken(code) == Classification(Number, NumberSize(code), 0)
  {
    ClassifyOther(code);
  }

  lemma ClassifyWord(code: string)
    requires |code| > 0 && IsAlpha(code[0])
    ensures ScanToken(code) == Classification(WordKind(code[..IdentifierSize(code)]), IdentifierSize(code), 0)
  {
    ClassifyOther(code);
  }

  lemma ClassifyInvalid(code: string)
    requires |code| > 0 && !StartsLexeme(code[0])
    ensures ScanToken(code) == Classification(Invalid, 0, 0)
  {
    ClassifyOther(code);
  }

  lemma ClassifyString(code: string)
    requires |code| > 0 && code[0] == '"'
    ensures var r := StrLiteralSize(code);
            ScanToken(code) == Classification(if r.0 then String else Invalid, r.1, r.2)
  {
  }

  lemma ClassifySlash(code: string)
    requires |code| > 0 && code[0] == '/'
    ensures ScanToken(code) ==
              if 1 < |code| && code[1] == '/' then Classification(Comment, CommentSize(code), 1)
              else Classification(Slash, 1, 0)
  {
  }

  /** A punctuation character other than `/` is a token of its own. */
  lemma ClassifyPunctuation(code: string)
    requires |code| > 0 && code[0] in "(){},.-+;*"
    ensures var c := ScanToken(code);
            && c.size == 1 && c.newlines == 0 && IsPunctuation(c.kind) && c.kind != Slash
            && SymbolSpelling(c.kind) == Some([code[0]])
  {
  }

  /** `!`, `=`, `<` and `>` take a following `=` with them. */
  lemma ClassifyOperator(code: string)
    requires |code| > 0 && code[0] in "!=<>"
    ensures var c := ScanToken(code);
            var equal := 1 < |code| && code[1] == '=';
            && c.size == (if equal then 2 else 1) && c.newlines == 0 && IsOperator(c.kind)
            && SymbolSpelling(c.kind) == Some(if equal then [code[0], '='] else [code[0]])
            && (c.kind in {Bang, Equal, Less, Greater} <==> !equal)
  {
  }

  // ---------------------------------------------------------------------
  // Soundness, one class of first character at a time
  // ---------------------------------------------------------------------

  lemma SpaceLexeme(code: string)
    requires |code| > 0 && IsSpace(code[0])
    ensures WellFormed(Space, code[..SpaceSize(code).0]) && Longest(Space, code, SpaceSize(code).0)
  {
    SpaceSizeSpec(code);
  }

  lemma NumberLexeme(code: string)
    requires |code| > 0 && IsDigit(code[0])
    ensures WellFormed(Number, code[..NumberSize(code)]) && Longest(Number, code, NumberSize(code))
  {
    NumberSizeSpec(code);
  }

  lemma WordLexeme(code: string)
    requires |code| > 0 && IsAlpha(code[0])
    ensures var n := IdentifierSize(code);
            WellFormed(WordKind(code[..n]), code[..n]) && Longest(WordKind(code[..n]), code, n)
  {
    IdentifierSizeSpec(code);
    var word := code[..IdentifierSize(code)];
    assert IsWord(word);
    if word in ReservedWords {
      ReservedWordsAreKeywords(word);
    }
  }

  lemma StringLexeme(code: string)
    requires StrLiteralSize(code).0
    ensures var n := StrLiteralSize(code).1;
            WellFormed(String, code[..n]) && Longest(String, code, n)
  {
    var n := StrLiteralSize(code).1;
    StrLiteralSizeSound(code);
    forall j | n < j <= |code|
      ensures !IsStringLiteral(code[..j])
    {
      if IsStringLiteral(code[..j]) {
        StrLiteralSizeComplete(code, j);
      }
    }
  }

  lemma CommentLexeme(code: string)
    requires 1 < |code| && code[0] == '/' && code[1] == '/'
    ensures WellFormed(Comment, code[..CommentSize(code)]) && Longest(Comment, code, CommentSize(code))
  {
    CommentSizeSpec(code);
  }

  lemma SlashSound(code: string)
    requires |code| > 0 && code[0] == '/'
    ensures SoundAt(code)
  {
    ClassifySlash(code);
    if 1 < |code| && code[1] == '/' {
      CommentLexeme(code);
    } else {
      assert code[..1] == "/";
    }
  }

  /** A punctuation or operator lexeme is well formed and, for the four
      operators that can take an `=`, cannot be extended when no `=` follows. */
  lemma SymbolLexeme(code: string, k: TokenKind, n: nat)
    requires (IsPunctuation(k) || IsOperator(k)) && k != Slash
    requires n <= |code| && SymbolSpelling(k) == Some(code[..n])
    requires k in {Bang, Equal, Less, Greater} ==> n == |code| || code[n] != '='
    ensures WellFormed(k, code[..n]) && Longest(k, code, n)
  {
    assert !IsKeyword(k) && k !in {Identifier, String, Number, Comment, Space, Eof, Invalid};
  }

  lemma PunctuationSound(code: string)
    requires |code| > 0 && code[0] in "(){},.-+;*"
    ensures SoundAt(code)
  {
    ClassifyPunctuation(code);
    var c := ScanToken(code);
    assert code[..1] == [code[0]];
    SymbolLexeme(code, c.kind, 1);
  }

  lemma OperatorSound(code: string)
    requires |code| > 0 && code[0] in "!=<>"
    ensures SoundAt(code)
  {
    ClassifyOperator(code);
    var c := ScanToken(code);
    if 1 < |code| && code[1] == '=' {
      assert code[..2] == [code[0], '='];
    } else {
      assert code[..1] == [code[0]];
    }
    SymbolLexeme(code, c.kind, c.size);
  }

  /** `scan_token` returns a well-formed lexeme that cannot be extended,
      whenever it does not report an invalid token. */
  lemma ScanTokenSound(code: string)
    requires |code| > 0
    ensures var c := ScanToken(code);
            c.kind != Invalid ==> WellFormed(c.kind, code[..c.size]) && Longest(c.kind, code, c.size)
  {
    var ch := code[0];
    if IsSpace(ch) {
      ClassifySpace(code);
      SpaceLexeme(code);
    } else if IsDigit(ch) {
      ClassifyNumber(code);
      NumberLexeme(code);
    } else if IsAlpha(ch) {
      ClassifyWord(code);
      WordLexeme(code);
    } else if ch == '"' {
      ClassifyString(code);
      if StrLiteralSize(code).0 {
        StringLexeme(code);
      }
    } else if ch == '/' {
      SlashSound(code);
    } else if ch in "(){},.-+;*" {
      PunctuationSound(code);
    } else if ch in "!=<>" {
      OperatorSound(code);
    } else {
      ClassifyInvalid(code);
    }
  }

  // ---------------------------------------------------------------------
  // Uniqueness: no other lexeme is well formed and maximal
  // ---------------------------------------------------------------------

  lemma SpaceUnique(code: string, n: nat)
    requires 0 < n <= |code| && IsSpaceRun(code[..n]) && Longest(Space, code, n)
    ensures ScanToken(code).kind == Space && ScanToken(code).size == n
  {
    assert code[0] == code[..n][0];
    ClassifySpace(code);
    assert forall i :: 0 <= i < n ==> code[i] == code[..n][i];
    SpanUnique(code, IsSpace, n);
  }

  lemma NumberUnique(code: string, n: nat)
    requires 0 < n <= |code| && IsNumeral(code[..n]) && Longest(Number, code, n)
    ensures ScanToken(code).kind == Number && ScanToken(code).size == n
  {
    NumeralStart(code[..n]);
    assert code[0] == code[..n][0];
    ClassifyNumber(code);
    NumberSizeUnique(code, n);
  }

  lemma WordUnique(code: string, k: TokenKind, n: nat)
    requires 0 < n <= |code|
    requires (k == Identifier && IsWord(code[..n]) && code[..n] !in ReservedWords)
             || (IsKeyword(k) && KeywordSpelling(k) == code[..n])
    requires n == |code| || !IsWordChar(code[n])
    ensures ScanToken(code).kind == k && ScanToken(code).size == n
  {
    var word := code[..n];
    if IsKeyword(k) {
      KeywordSpellingIsWord(k);
      KeywordsAreReserved(k);
    }
    assert IsWord(word) && WordKind(word) == k;
    assert code[0] == word[0];
    ClassifyWord(code);
    assert forall i :: 0 <= i < n ==> code[i] == word[i];
    SpanUnique(code, IsWordChar, n);
  }

  lemma StringUnique(code: string, n: nat)
    requires 0 < n <= |code| && IsStringLiteral(code[..n])
    ensures ScanToken(code).kind == String && ScanToken(code).size == n
  {
    assert code[0] == code[..n][0];
    ClassifyString(code);
    StrLiteralSizeComplete(code, n);
  }

  lemma CommentUnique(code: string, n: nat)
    requires 0 < n <= |code| && IsComment(code[..n]) && Longest(Comment, code, n)
    ensures ScanToken(code).kind == Comment && ScanToken(code).size == n
  {
    assert code[0] == code[..n][0] && code[1] == code[..n][1];
    ClassifySlash(code);
    CommentSizeUnique(code, n);
  }

  lemma SlashUnique(code: string, n: nat)
    requires 0 < n <= |code| && code[..n] == "/" && Longest(Slash, code, n)
    ensures ScanToken(code).kind == Slash && ScanToken(code).size == n
  {
    assert code[0] == code[..n][0];
    ClassifySlash(code);
  }

  lemma SymbolUnique(code: string, k: TokenKind, n: nat)
    requires (IsPunctuation(k) || IsOperator(k)) && k != Slash
    requires 0 < n <= |code| && SymbolSpelling(k) == Some(code[..n])
    requires k in {Bang, Equal, Less, Greater} ==> n == |code| || code[n] != '='
    ensures ScanToken(code).kind == k && ScanToken(code).size == n
  {
    assert code[0] == code[..n][0];
    if n == 2 {
      assert code[1] == code[..n][1];
    }
  }

  /** The lexeme `scan_token` classifies is the only well-formed lexeme at
      the start of the view that cannot be extended. */
  lemma ScanTokenUnique(code: string, k: TokenKind, n: nat)
    requires 0 < n <= |code| && k != Eof
    requires WellFormed(k, code[..n]) && Longest(k, code, n)
    ensures ScanToken(code).kind == k && ScanToken(code).size == n
  {
    if k == Space {
      SpaceUnique(code, n);
    } else if k == Number {
      NumberUnique(code, n);
    } else if k == Identifier || IsKeyword(k) {
      WordUnique(code, k, n);
    } else if k == String {
      StringUnique(code, n);
    } else if k == Comment {
      CommentUnique(code, n);
    } else if k == Slash {
      SlashUnique(code, n);
    } else {
      KindGroups(k);
      SymbolUnique(code, k, n);
    }
  }

  // ---------------------------------------------------------------------
  // Invalid tokens and newline counts
  // ---------------------------------------------------------------------

  lemma StartsValid(code: string)
    requires |code| > 0 && StartsLexeme(code[0]) && code[0] != '"'
    ensures ScanToken(code).kind != Invalid
  {
    var ch := code[0];
    if IsSpace(ch) {
      ClassifySpace(code);
    } else if IsDigit(ch) {
      ClassifyNumber(code);
    } else if IsAlpha(ch) {
      ClassifyWord(code);
      var word := code[..IdentifierSize(code)];
      if word in ReservedWords {
        ReservedWordsAreKeywords(word);
      }
    } else if ch == '/' {
      ClassifySlash(code);
    } else if ch in "(){},.-+;*" {
      ClassifyPunctuation(code);
    } else {
      ClassifyOperator(code);
    }
  }

  /** `scan_token` reports an invalid token of size 0 exactly for a first
      character that begins no lexeme, and one spanning the rest of the
      input exactly for a quote that begins no string literal. */
  lemma ScanTokenInvalid(code: string)
    requires |code| > 0
    ensures var c := ScanToken(code);
            (c.kind == Invalid && c.size == 0) <==> !StartsLexeme(code[0])
    ensures var c := ScanToken(code);
            (c.kind == Invalid && c.size > 0)
            <==> (code[0] == '"' && forall j :: 0 <= j <= |code| ==> !IsStringLiteral(code[..j]))
    ensures var c := ScanToken(code);
            c.kind == Invalid && c.size > 0 ==> c.size == |code|
  {
    if !StartsLexeme(code[0]) {
      ClassifyInvalid(code);
    } else if code[0] == '"' {
      ClassifyString(code);
      var r := StrLiteralSize(code);
      if r.0 {
        StrLiteralSizeSound(code);
      } else {
        forall j | 0 <= j <= |code|
          ensures !IsStringLiteral(code[..j])
        {
          if IsStringLiteral(code[..j]) {
            StrLiteralSizeComplete(code, j);
          }
        }
      }
    } else {
      StartsValid(code);
    }
  }

  /** The newline count `scan_token` returns is the number of newlines in
      the lexeme, except for a comment, which always counts one. */
  lemma ScanTokenNewlines(code: string)
    requires |code| > 0
    ensures var c := ScanToken(code);
            && (c.kind == Comment ==> c.newlines == 1)
            && (c.kind != Comment && c.kind != Invalid ==> c.newlines == Count(code[..c.size], '\n'))
  {
    var ch := code[0];
    if IsSpace(ch) {
      ClassifySpace(code);
    } else if IsDigit(ch) {
      ClassifyNumber(code);
      NumberLexeme(code);
      NumeralHasNoNewline(code[..NumberSize(code)]);
    } else if IsAlpha(ch) {
      ClassifyWord(code);
      WordLexeme(code);
      IdentifierSizeSpec(code);
      WordHasNoNewline(code[..IdentifierSize(code)]);
    } else if ch == '"' {
      ClassifyString(code);
      StrLiteralSizeSound(code);
    } else if ch == '/' {
      ClassifySlash(code);
      assert code[..1] == "/";
    } else if ch in "(){},.-+;*" {
      ClassifyPunctuation(code);
      assert code[..1] == [ch];
    } else if ch in "!=<>" {
      ClassifyOperator(code);
      if 1 < |code| && code[1] == '=' {
        assert code[..2] == [ch, '='];
      } else {
        assert code[..1] == [ch];
      }
    } else {
      ClassifyInvalid(code);
    }
  }
}
