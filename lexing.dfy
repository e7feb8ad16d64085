/**
 * The scanner of src/lexing.cpp: a per-character classifier (`scan_token`)
 * with its size helpers, and the driver loop (`scan_tokens`) that walks a
 * shrinking view of the source text while keeping a column/line cursor.
 *
 * Characters are single `char`s; `isalpha` and `isdigit` are taken in the
 * ASCII sense. The two RE2 patterns are written out as scanners.
 */
module Lexing {
  import opened Tokens

  // ---------------------------------------------------------------------
  // Character classes
  // ---------------------------------------------------------------------

  predicate IsDigit(c: char) { '0' <= c <= '9' }

  /** `is_alpha`: an ASCII letter or an underscore. Such a character is
      neither a digit, nor whitespace, nor any character `scan_token`
      gives a case of its own, so the default branch sees every word. */
  function IsAlpha(c: char): (b: bool)
    ensures b ==> !IsDigit(c) && !IsSpace(c) && c !in "(){},.-+;*!=<>/\""
  {
    'a' <= c <= 'z' || 'A' <= c <= 'Z' || c == '_'
  }

  /** A character an identifier may continue with. */
  predicate IsWordChar(c: char) { IsAlpha(c) || IsDigit(c) }

  /** The characters of " \n\t\r\v\f". */
  predicate IsSpace(c: char) {
    c == ' ' || c == '\n' || c == '\t' || c == '\r' || c == '\U{000B}' || c == '\U{000C}'
  }

  // ---------------------------------------------------------------------
  // Queries on the view
  // ---------------------------------------------------------------------

  /** `find_first_of(c)`: the index of the first `c` in `s`; `|s|` stands
      for `npos` when there is none. */
  function FindFirst(s: string, c: char): (i: nat)
    ensures i <= |s|
    ensures i < |s| ==> s[i] == c
  {
    if |s| == 0 || s[0] == c then 0 else 1 + FindFirst(s[1..], c)
  }

  /** Length of the longest prefix of `s` whose characters all satisfy `p`
      (`find_first_not_of` / `find_if_not`, with `npos` as `|s|`). */
  function Span(s: string, p: char -> bool): (n: nat)
    ensures n <= |s|
    ensures n < |s| ==> !p(s[n])
  {
    if |s| == 0 || !p(s[0]) then 0 else 1 + Span(s[1..], p)
  }

  /** `std::count`: the number of occurrences of `c` in `s`. */
  function Count(s: string, c: char): nat
  {
    if |s| == 0 then 0 else (if s[0] == c then 1 else 0) + Count(s[1..], c)
  }

  /** `is_next_char`: the view is non-empty and starts with `expected`. */
  predicate IsNextChar(expected: char, code: string) {
    |code| > 0 && code[0] == expected
  }

  // ---------------------------------------------------------------------
  // Size helpers
  // ---------------------------------------------------------------------

  /** `get_comment_size`: up to and including the first newline, or the
      whole remainder when there is no newline. */
  function CommentSize(code: string): (n: nat)
    ensures n <= |code|
    ensures n < |code| ==> 0 < n && code[n - 1] == '\n'
  {
    var newline := FindFirst(code, '\n');
    if newline == |code| then |code| else newline + 1
  }

  /** `get_space_size`: the length of the maximal whitespace prefix and the
      number of newlines in it. */
  function SpaceSize(code: string): (r: (nat, nat))
    ensures r.0 <= |code|
    ensures r.0 < |code| ==> !IsSpace(code[r.0])
  {
    var size := Span(code, IsSpace);
    (size, Count(code[..size], '\n'))
  }

  /** Walks the body of the string pattern `"(\\.|[^\\"])*"` from index `i`
      and returns the index just past the closing quote. A backslash takes
      the next character whatever it is except a newline (RE2's `.`); any
      other character but a quote stands for itself (`[^\\"]` includes the
      newline). The two alternatives start with different characters, so
      the walk is deterministic and finds the only match there is. */
  function StringEnd(code: string, i: nat): (r: Option<nat>)
    decreases |code| - i
    ensures r.Some? ==> i < r.value <= |code| && code[r.value - 1] == '"'
  {
    if i >= |code| then None
    else if code[i] == '"' then Some(i + 1)
    else if code[i] == '\\' then
      if i + 1 < |code| && code[i + 1] != '\n' then StringEnd(code, i + 2) else None
    else StringEnd(code, i + 1)
  }

  /** The end of a match of the string pattern that starts at index `s`. */
  function MatchAt(code: string, s: nat): (r: Option<nat>)
    ensures r.Some? ==> s + 2 <= r.value <= |code|
  {
    if s < |code| && code[s] == '"' then StringEnd(code, s + 1) else None
  }

  /** `get_str_literal_size`, matched at the start of the view: whether a
      closed literal starts there, its length (the whole remainder when it
      does not), and its newline count (0 when it does not). */
  function StrLiteralSize(code: string): (r: (bool, nat, nat))
    ensures r.1 <= |code|
    ensures r.0 ==> 2 <= r.1
    ensures !r.0 ==> r.1 == |code| && r.2 == 0
  {
    match MatchAt(code, 0)
    case Some(e) => (true, e, Count(code[..e], '\n'))
    case None => (false, |code|, 0)
  }

  /** The leftmost match of the string pattern at or after index `s`, as
      (start, end): what an unanchored `RE2::PartialMatch` finds. */
  function LeftmostMatch(code: string, s: nat): (r: Option<(nat, nat)>)
    decreases |code| - s
    ensures r.Some? ==> s <= r.value.0 && MatchAt(code, r.value.0) == Some(r.value.1)
    ensures r.Some? ==> forall t :: s <= t < r.value.0 ==> MatchAt(code, t).None?
    ensures r.None? ==> forall t :: s <= t ==> MatchAt(code, t).None?
  {
    if s >= |code| then None
    else match MatchAt(code, s)
      case Some(e) => Some((s, e))
      case None => LeftmostMatch(code, s + 1)
  }

  /** `get_str_literal_size` exactly as written: the match may start after
      index 0, yet its length is returned as the size of a token that the
      driver slices from index 0. */
  function StrLiteralSizeAsWritten(code: string): (r: (bool, nat, nat))
    ensures r.1 <= |code|
    ensures r.0 <==> exists t: nat :: MatchAt(code, t).Some?
    ensures r.0 ==> exists t: nat :: && MatchAt(code, t).Some?
                                && (forall u: nat :: u < t ==> MatchAt(code, u).None?)
                                && r.1 == MatchAt(code, t).value - t
                                && r.2 == Count(code[t..MatchAt(code, t).value], '\n')
    ensures !r.0 ==> r.1 == |code| && r.2 == 0
  {
    match LeftmostMatch(code, 0)
    case Some((s, e)) => (true, e - s, Count(code[s..e], '\n'))
    case None => (false, |code|, 0)
  }

  /** `get_number_literal_size`, for a view that starts with a digit: the
      pattern `([0-9]+[.])?[0-9]+` matched from index 0. */
  function NumberSize(code: string): (n: nat)
    requires 0 < |code| && IsDigit(code[0])
    ensures 1 <= n <= |code|
  {
    var whole := Span(code, IsDigit);
    if whole + 1 < |code| && code[whole] == '.' && IsDigit(code[whole + 1])
    then whole + 1 + Span(code[whole + 1..], IsDigit)
    else whole
  }

  /** `get_identifier_size`: the maximal run of letters, digits and `_`. */
  function IdentifierSize(code: string): (n: nat)
    ensures n <= |code|
    ensures n < |code| ==> !IsWordChar(code[n])
  {
    Span(code, IsWordChar)
  }

  /** `reserved_words`. The table's entry for "function" names a kind the
      enumeration does not have; here it maps to `Fun`, the enumeration's
      only kind for that keyword. */
  const ReservedWords: map<string, TokenKind> := map[
    "and" := And, "class" := Class, "else" := Else, "false" := False,
    "for" := For, "function" := Fun, "if" := If, "null" := Null,
    "or" := Or, "print" := Print, "return" := Return, "super" := Super,
    "this" := This, "true" := True, "var" := Var, "while" := While
  ]

  /** A reserved word's own kind, and `Identifier` for every other word. */
  function WordKind(word: string): TokenKind
  {
    if word in ReservedWords then ReservedWords[word] else Identifier
  }

  // ---------------------------------------------------------------------
  // The classifier
  // ---------------------------------------------------------------------

  /** The triple `scan_token` returns. */
  datatype Classification = Classification(kind: TokenKind, size: nat, newlines: nat)

  /** `scan_token`: classify the lexeme at the start of a non-empty view. */
  function ScanToken(code: string): (c: Classification)
    requires |code| > 0
    ensures c.size <= |code|
    ensures c.kind != Invalid ==> c.size >= 1
    ensures c.kind != Eof
    ensures c.kind == Invalid ==> c.newlines == 0 && (c.size == 0 || (code[0] == '"' && c.size == |code|))
  {
    match code[0]
    case '(' => Classification(LeftParen, 1, 0)
    case ')' => Classification(RightParen, 1, 0)
    case '{' => Classification(LeftBrace, 1, 0)
    case '}' => Classification(RightBrace, 1, 0)
    case ',' => Classification(Comma, 1, 0)
    case '.' => Classification(Dot, 1, 0)
    case '-' => Classification(Minus, 1, 0)
    case '+' => Classification(Plus, 1, 0)
    case ';' => Classification(Semicolon, 1, 0)
    case '*' => Classification(Star, 1, 0)
    case '!' =>
      if IsNextChar('=', code[1..]) then Classification(BangEqual, 2, 0) else Classification(Bang, 1, 0)
    case '=' =>
      if IsNextChar('=', code[1..]) then Classification(EqualEqual, 2, 0) else Classification(Equal, 1, 0)
    case '<' =>
      if IsNextChar('=', code[1..]) then Classification(LessEqual, 2, 0) else Classification(Less, 1, 0)
    case '>' =>
      if IsNextChar('=', code[1..]) then Classification(GreaterEqual, 2, 0) else Classification(Greater, 1, 0)
    case '/' =>
      if IsNextChar('/', code[1..]) then Classification(Comment, CommentSize(code), 1)
      else Classification(Slash, 1, 0)
    case ' ' | '\n' | '\t' | '\r' | '\U{000B}' | '\U{000C}' =>
      var (size, newlines) := SpaceSize(code);
      Classification(Space, size, newlines)
    case '"' =>
      var (valid, size, newlines) := StrLiteralSize(code);
      Classification(if valid then String else Invalid, size, newlines)
    case _ => ScanOther(code)
  }

  /** The default branch of `scan_token`: a number, a word, or a character
      that begins no token. */
  function ScanOther(code: string): (c: Classification)
    requires |code| > 0
    ensures c.size <= |code|
    ensures c.kind != Invalid ==> c.size >= 1
    ensures c.kind == Invalid ==> c.size == 0 && c.newlines == 0
  {
    if IsDigit(code[0]) then Classification(Number, NumberSize(code), 0)
    else if IsAlpha(code[0]) then
      var size := IdentifierSize(code);
      Classification(WordKind(code[..size]), size, 0)
    else Classification(Invalid, 0, 0)
  }

  // ---------------------------------------------------------------------
  // The driver
  // ---------------------------------------------------------------------

  /** The cursor after a classified lexeme: the column moves past it, and a
      lexeme with newlines puts the column back to 0 and moves the line on. */
  function Advance(pos: nat, line: nat, c: Classification): (r: (nat, nat))
    ensures line <= r.1
    ensures r.1 == line <==> c.newlines == 0
    ensures r.1 == line ==> r.0 == pos + c.size
    ensures r.1 != line ==> r.0 == 0 && r.1 - line == c.newlines
  {
    if c.newlines != 0 then (0, line + c.newlines) else (pos + c.size, line)
  }

  /** Every token the loop of `scan_tokens` constructs from the view `code`
      with the cursor at (`pos`, `line`), whitespace and comments included:
      it ends with the invalid token that stops the loop, or else with the
      end-of-input token built after it. */
  function Trace(code: string, pos: nat, line: nat): (tr: seq<Token>)
    decreases |code|
    ensures 0 < |tr| <= |code| + 1
    ensures tr[0].pos == pos && tr[0].line == line
  {
    if |code| == 0 then [Token(Eof, "", pos, line)]
    else
      var c := ScanToken(code);
      var t := Token(c.kind, code[..c.size], pos, line);
      if c.kind == Invalid then [t]
      else
        var (pos', line') := Advance(pos, line, c);
        [t] + Trace(code[c.size..], pos', line')
  }

  /** Whether the driver appends a token of this kind to its output. */
  predicate IsEmitted(k: TokenKind) { k != Space && k != Comment }

  /** The tokens the driver keeps: all but whitespace and comments. */
  function Visible(tr: seq<Token>): (out: seq<Token>)
  {
    if |tr| == 0 then []
    else (if IsEmitted(tr[0].kind) then [tr[0]] else []) + Visible(tr[1..])
  }

  /** The result of `scan_tokens`. */
  function Scan(code: string): seq<Token>
  {
    Visible(Trace(code, 0, 0))
  }

  lemma {:induction false} VisibleAppend(a: seq<Token>, b: seq<Token>)
    ensures Visible(a + b) == Visible(a) + Visible(b)
  {
    if |a| > 0 {
      assert (a + b)[1..] == a[1..] + b;
      VisibleAppend(a[1..], b);
    } else {
      assert a + b == b;
    }
  }

  lemma AppendAssoc(a: seq<Token>, b: seq<Token>, c: seq<Token>)
    ensures (a + b) + c == a + (b + c)
  {
  }

  lemma VisibleSingle(t: Token)
    ensures Visible([t]) == if IsEmitted(t.kind) then [t] else []
  {
    assert [t][1..] == [];
  }

  /** One step of Trace on a non-empty view. */
  lemma TraceStep(code: string, pos: nat, line: nat)
    requires |code| > 0
    ensures var c := ScanToken(code);
            var t := Token(c.kind, code[..c.size], pos, line);
            var next := Advance(pos, line, c);
            Trace(code, pos, line) == if c.kind == Invalid then [t] else [t] + Trace(code[c.size..], next.0, next.1)
  {
  }

  /** One iteration of the driver: what the view contributes to the output
      is the current token, if it is kept, followed by what the rest of the
      view contributes from the advanced cursor. */
  lemma VisibleStep(code: string, pos: nat, line: nat)
    requires |code| > 0
    ensures var c := ScanToken(code);
            var t := Token(c.kind, code[..c.size], pos, line);
            var next := Advance(pos, line, c);
            var kept := if IsEmitted(c.kind) then [t] else [];
            Visible(Trace(code, pos, line))
            == if c.kind == Invalid then kept else kept + Visible(Trace(code[c.size..], next.0, next.1))
  {
    var c := ScanToken(code);
    var t := Token(c.kind, code[..c.size], pos, line);
    var next := Advance(pos, line, c);
    TraceStep(code, pos, line);
    VisibleSingle(t);
    if c.kind != Invalid {
      VisibleAppend([t], Trace(code[c.size..], next.0, next.1));
    }
  }

  /** `scan_tokens`: the loop over the shrinking view. */
  method ScanTokens(input: string) returns (tokens: seq<Token>)
    ensures tokens == Scan(input)
  {
    tokens := [];
    var code := input;
    var pos: nat, line: nat := 0, 0;
    while |code| != 0
      invariant Scan(input) == tokens + Visible(Trace(code, pos, line))
      decreases |code|
    {
      var c := ScanToken(code);
      var token := Token(c.kind, code[..c.size], pos, line);
      VisibleStep(code, pos, line);
      ghost var before, next := tokens, Advance(pos, line, c);
      ghost var kept: seq<Token> := if IsEmitted(c.kind) then [token] else [];
      if c.kind != Space && c.kind != Comment {
        tokens := tokens + [token];
      }
      assert tokens == before + kept;
      if c.kind == Invalid {
        return;
      }
      pos := pos + c.size;
      if c.newlines != 0 {
        pos := 0;
        line := line + c.newlines;
      }
      code := code[c.size..];
      assert pos == next.0 && line == next.1;
      AppendAssoc(before, kept, Visible(Trace(code, pos, line)));
    }
    VisibleSingle(Token(Eof, "", pos, line));
    tokens := tokens + [Token(Eof, "", pos, line)];
  }
}
