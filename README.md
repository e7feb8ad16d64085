# dist scanner, modelled in Dafny

`dist` is a small interpreter front end. Its only logic is the scanner in
`src/lexing.cpp`, which turns source text into a vector of tokens of the kinds
declared in `include/dist/token.hpp`. That scanner has two layers:

- The classifier, `scan_token`, looks at the first character of the
  remaining text (the "view") and returns a triple: a token kind, how many
  characters the lexeme takes, and how many newlines the lexeme counts for.
  It uses helpers that measure comments, whitespace runs, string literals,
  numbers and identifiers, plus a table of reserved words.
- The driver, `scan_tokens`, runs a loop. It classifies the view, records a
  token at the current column/line cursor, drops whitespace and comment
  tokens, stops after the first invalid token, and otherwise moves the
  cursor and the view on. When the input runs out it appends an
  end-of-input token.

The project has six modules:

| file | module | contents |
|---|---|---|
| `tokens.dfy` | `Tokens` | the 42 token kinds in declaration order, their ordinals, their groups, the fixed spellings, and the `Token` record |
| `lexing.dfy` | `Lexing` | the classifier and its helpers as functions; the driver as the method `ScanTokens`, with its loop, proved equal to the recursive `Scan` |
| `keywords.dfy` | `Keywords` | the reserved-word table checked against the keyword kinds |
| `lexing_spec.dfy` | `LexingSpec` | a reference grammar of lexemes (`WellFormed`) and of maximal munch (`Longest`), written separately from the scanner; the size helpers proved against it; the string-pattern finding |
| `classifier_spec.dfy` | `ClassifierSpec` | `scan_token` proved sound and unique against the grammar, plus its invalid and newline cases |
| `scan_properties.dfy` | `ScanProperties` | properties of the whole stream: its shape, reconstruction of the input, maximal munch at every offset, the cursor rule and line numbers |

Modelling choices:

- **Characters.** Characters are Dafny `char`s. `isalpha` and `isdigit`
  are taken in the ASCII sense.
- **Sizes.** `size_t` counters are unbounded `nat`s. Every size is at most
  the input length, and the line and column counters only grow by sizes
  and newline counts. So no wrap-around is reachable for any input that
  fits in memory.
- **The number pattern.** `([0-9]+[.])?[0-9]+` is written as a scanner
  (`Lexing.NumberSize`). The scanner only calls it on a view that starts
  with a digit, so the unanchored match starts at index 0. The longest
  digit run is extended by a dot and digits only when a digit follows the
  dot.
- **The string pattern.** `"(\\.|[^\\"])*"` is written as a
  deterministic walk (`Lexing.StringEnd`). The two alternatives begin with
  different characters, so at most one match starts at any index.
  - A backslash escapes any character except a newline, because RE2's `.`
    does not match a newline by default.
  - Any other character except a quote stands for itself, newlines
    included, so strings may span lines.
  - The source's unanchored `RE2::PartialMatch` is modelled exactly as
    written (`Lexing.StrLiteralSizeAsWritten`: a leftmost search over start
    indices).
  - The scanner uses the match anchored at index 0 (`Lexing.StrLiteralSize`).
    The two agree whenever a literal starts at index 0, which is the only
    case the code's authors evidently had in mind. See "## Findings".
- **The reserved word "function".** The table maps the text
  `"function"` to `tok_function` (src/lexing.cpp:54). The enumeration has no
  such member; its keyword kind is `tok_fun` (include/dist/token.hpp:34).
  The model keeps the text `"function"` and maps it to `Fun`, so `"fun"`
  scans as an identifier.
- **Comments.** The classifier reports one newline for every comment,
  even one that ends at the end of the input without a newline. The model
  follows the code. As a result, the end-of-input token after such a
  comment is one line below the last line of the text (`ScanProperties.TraceLines`).
- **The cursor after whitespace.** A whitespace run that contains a newline
  resets the column to 0. The spaces after that newline in the same run are
  not counted, so in `a` newline, two spaces, `b` the `b` is at column 0 of
  line 1 (`ScanProperties.TraceCursor`, `ScanProperties.SpaceAfterNewline`).
- **Tokens.** `token` has four `const` fields, set by its constructor from
  its arguments. The datatype `Tokens.Token` is an immutable value with
  the same four fields, so "the constructor stores exactly its arguments"
  and "a token never changes" hold by construction. The lexeme is a copy
  of the text, not a view into it.
- **The driver.** `Lexing.Trace` is the list of every token the loop
  constructs, whitespace and comments included. `Lexing.Scan` keeps the
  emitted ones. `Lexing.ScanTokens` is the loop itself, with the trace as
  its invariant, and it terminates because every non-invalid
  classification consumes at least one character.

## Model

| member | source | states |
|---|---|---|
| Tokens.Ordinal | include/dist/token.hpp:7-50 | every kind has an underlying enum value below 42 |
| Tokens.FromOrdinal | include/dist/token.hpp:7-50 | a value names a kind exactly when it is below 42, and then the kind it names has that value |
| Tokens.OrdinalInjective | include/dist/token.hpp:7-50 | the 42 kinds are distinct: two kinds with the same value are the same kind |
| Tokens.KindGroups | include/dist/token.hpp:7-50 | the kinds come in declaration-order groups: 11 punctuation, 8 operators, 3 literals, 16 keywords, then end of input, invalid, comment and whitespace |
| Tokens.TokenFields | include/dist/token.hpp:52-59 | the constructor stores exactly its kind, lexeme, column and line, and two tokens are equal exactly when those four agree |
| Keywords.ReservedWordsAreKeywords | src/lexing.cpp:50-61 | every word in the reserved-word table maps to a keyword kind whose spelling is that word |
| Keywords.KeywordsAreReserved | src/lexing.cpp:50-61 | every one of the 16 keyword kinds is in the table under its spelling, so the table and the keyword kinds are in one-to-one correspondence |
| Keywords.WordKindSpec | src/lexing.cpp:136-138 | a word is an identifier exactly when it is not reserved; otherwise its kind is the keyword spelled as the word |
| Keywords.FunIsNotReserved | src/lexing.cpp:54 | the keyword `Fun` is spelled "function", and "fun" is not a reserved word |
| Lexing.FindFirst | src/lexing.cpp:15 | the result is within the view, and when it is not the end there is a `c` at that index |
| Lexing.Span | src/lexing.cpp:20 | the result is within the view, and the character at it, if any, fails the predicate |
| Lexing.CommentSize | src/lexing.cpp:14-17 | a comment never runs past the view, and when it stops short of the end its last character is a newline |
| Lexing.SpaceSize | src/lexing.cpp:19-25 | the whitespace run stays within the view and is followed by a non-whitespace character or the end |
| Lexing.StringEnd | src/lexing.cpp:29 | the walk over a literal's body, when it succeeds, ends past its start, within the view, just after a closing quote |
| Lexing.MatchAt | src/lexing.cpp:29 | a match of the string pattern anchored at an index takes at least two characters and stays within the view |
| Lexing.StrLiteralSize | src/lexing.cpp:27-35 | a valid literal is at least two characters long; with no valid literal, the size is the whole view and the newline count is 0 |
| Lexing.StrLiteralSizeAsWritten | src/lexing.cpp:27-35 | the source's unanchored match: valid exactly when the pattern matches at some index; then the size and newline count are those of the leftmost match, wherever it starts; with no match, the size is the whole view and the count is 0 |
| Lexing.LeftmostMatch | src/lexing.cpp:29 | the unanchored search finds the leftmost match: it is a match of the pattern at its start, no index between the search start and it begins a match, and when nothing is found no index from the search start on begins one |
| Lexing.NumberSize | src/lexing.cpp:37-41 | a number starting with a digit takes at least one character and no more than the view |
| Lexing.IsAlpha | src/lexing.cpp:43 | a letter or `_` is neither a digit, nor whitespace, nor a character with its own case in `scan_token`, so every word reaches the default branch's word case |
| Lexing.IdentifierSize | src/lexing.cpp:45-48 | the identifier run stays within the view and is followed by a non-word character or the end |
| Lexing.ScanToken | src/lexing.cpp:63-144 | a classification never takes more than the view; every kind but invalid takes at least one character; end of input is never returned; an invalid result counts no newlines, and is either empty or an unterminated string taking the whole view |
| Lexing.ScanOther | src/lexing.cpp:130-143 | numbers and words take at least one character; any other leading character is invalid with size 0 |
| Lexing.Advance | src/lexing.cpp:161-165 | the cursor stays on its line exactly when the lexeme counts no newlines, and then moves past the lexeme; otherwise it goes to column 0 of the line that many lines further on |
| Lexing.Trace | src/lexing.cpp:152-168 | the loop constructs at least one token and at most one more than the input has characters, so it terminates; its first token is at the starting cursor |
| Lexing.VisibleAppend | src/lexing.cpp:155-157 | the filter works token by token: filtering a concatenation concatenates the filtered parts, so the output keeps the loop's order |
| Lexing.VisibleSingle | src/lexing.cpp:155-157 | a single token is kept exactly when it is neither whitespace nor a comment |
| Lexing.VisibleStep | src/lexing.cpp:153-166 | one iteration of the loop: the output gains the current token unless it is whitespace or a comment, and then stops at an invalid token or continues from the advanced cursor on the rest of the view |
| Lexing.ScanTokens | src/lexing.cpp:148-170 | the loop that walks the view returns exactly the stream `Scan` specifies, whose properties the ScanProperties lemmas state |
| LexingSpec.FindFirstUnique | src/lexing.cpp:15 | the first occurrence is unique: any index before which `c` does not occur, and at which it does occur (or the end), is the one found |
| LexingSpec.SpanUnique | src/lexing.cpp:20 | the maximal prefix is unique: any prefix satisfying the predicate throughout that cannot be extended is the one found |
| LexingSpec.CountZero | src/lexing.cpp:22 | a text counts no `c` exactly when it contains no `c` |
| LexingSpec.CountAppend | src/lexing.cpp:22 | newline counts add up over concatenated texts |
| LexingSpec.CommentSizeSpec | src/lexing.cpp:14-17 | a comment has no newline before its last character, and it ends with a newline or runs to the end of a view that has none |
| LexingSpec.CommentSizeUnique | src/lexing.cpp:14-17 | any comment prefix that ends at a newline or at the end of the view is the one the helper measures |
| LexingSpec.CommentNewlineCount | src/lexing.cpp:14-17 | the comment text holds one newline when the view has one and none otherwise |
| LexingSpec.SpaceSizeSpec | src/lexing.cpp:19-25 | every character of the measured run is whitespace |
| LexingSpec.IdentifierSizeSpec | src/lexing.cpp:45-48 | every character of the measured run is a letter, digit or `_` |
| LexingSpec.NumberSizeSpec | src/lexing.cpp:37-41 | the number helper's prefix is a numeral, and no longer prefix of the view is one |
| LexingSpec.NumberSizeUnique | src/lexing.cpp:37-41 | any numeral prefix that no longer numeral prefix extends has the helper's length |
| LexingSpec.NumberExamples | src/lexing.cpp:39 | "1.2.3" gives a number of 3 characters ("1.2"), and "12." gives one of 2 ("12") |
| LexingSpec.StrLiteralSizeSound | src/lexing.cpp:27-35 | a valid result measures a string literal of the grammar, and its newline count is the number of newlines in it |
| LexingSpec.StrLiteralSizeComplete | src/lexing.cpp:27-35 | whenever the view starts with a string literal, the helper reports it valid with exactly that length |
| LexingSpec.MatchAtSound | src/lexing.cpp:29 | a match of the pattern anchored at any index is a string literal of the grammar |
| LexingSpec.MatchAtComplete | src/lexing.cpp:29 | any string literal of the grammar starting at an index is the match anchored there |
| LexingSpec.AsWrittenValid | src/lexing.cpp:27-35 | the source's unanchored helper reports a valid string exactly when some part of the view is a string literal |
| LexingSpec.AsWrittenMeasuresLeftmost | src/lexing.cpp:27-35 | a valid result of the source's helper has the length and newline count of a string literal in the view that no literal starts before |
| LexingSpec.AsWrittenAgreesWhenAnchored | src/lexing.cpp:29-31 | when a literal starts at index 0, the source's unanchored match gives the same triple as the anchored one |
| LexingSpec.AsWrittenMisplacesLiteral | src/lexing.cpp:29-31 | for the view `"\` newline `""`, the code as written reports a valid string of size 2 whose text `"\` is not a literal; the anchored helper reports it unterminated |
| ClassifierSpec.ClassifyPunctuation | src/lexing.cpp:65-84 | each of `( ) { } , . - + ; *` is its own kind with size 1 and no newlines |
| ClassifierSpec.ClassifyOperator | src/lexing.cpp:85-108 | `!`, `=`, `<`, `>` give size 2 exactly when `=` follows, and give their one-character kind exactly when it does not |
| ClassifierSpec.ClassifyInvalid | src/lexing.cpp:140-142 | a view beginning with a character that starts no lexeme is invalid with size 0 |
| ClassifierSpec.ScanTokenSound | src/lexing.cpp:63-144 | every non-invalid classification is a well-formed lexeme of its kind that cannot be extended (maximal munch) |
| ClassifierSpec.ScanTokenUnique | src/lexing.cpp:63-144 | conversely, any well-formed lexeme of any kind at the start of the view that cannot be extended is exactly what the classifier returns |
| ClassifierSpec.ScanTokenInvalid | src/lexing.cpp:125-142 | invalid with size 0 exactly when the first character starts no lexeme; invalid with a positive size exactly when a quote opens a literal that no prefix of the view closes, and then it takes the whole view |
| ClassifierSpec.ScanTokenNewlines | src/lexing.cpp:63-144 | a comment always reports one newline, whatever its text holds; every other kind reports the number of newlines in its lexeme |
| ScanProperties.TraceShape | src/lexing.cpp:152-168 | the loop constructs a non-empty stream that ends with its only end-of-input or invalid token, and an end-of-input token has the empty lexeme |
| ScanProperties.TraceReconstructs | src/lexing.cpp:152-168 | the lexemes joined are a prefix of the input: all of it when the stream ends with end of input or an unterminated string; otherwise they stop at a character that starts no lexeme |
| ScanProperties.TraceStops | src/lexing.cpp:125-159 | a stream that ends with an invalid token stops, at the offset where the earlier lexemes end, either at a character that starts no lexeme (empty lexeme) or at a quote from which no string literal can be closed (lexeme the whole rest of the input) |
| ScanProperties.TraceCursor | src/lexing.cpp:154-165 | the first token is at the starting cursor; each next token is past the previous lexeme on the same line, or at column 0 of the line moved on by its newline count |
| ScanProperties.TraceMaximalMunch | src/lexing.cpp:152-167 | every token's lexeme is the text at its offset in the input, and every non-invalid token is the longest well-formed lexeme there |
| ScanProperties.TraceLines | src/lexing.cpp:109-168 | every token but end of input is on the line given by the newlines before it; end of input is on the input's last line, one line further when the input ends inside a comment |
| ScanProperties.VisibleShape | src/lexing.cpp:155-160 | dropping whitespace and comments keeps the stream's shape and its last token, and leaves none of them |
| ScanProperties.VisibleSubset | src/lexing.cpp:155-157 | every emitted token was constructed by the loop (one direction of `ScanProperties.ScanKeeps`) |
| ScanProperties.VisibleComplete | src/lexing.cpp:155-157 | conversely, every constructed token that is not whitespace or a comment is emitted |
| ScanProperties.ScanOrder | src/lexing.cpp:152-157 | a constructed token that is kept is the output token whose index is the number of tokens kept before it, so the output keeps the order of construction |
| ScanProperties.ScanKeeps | src/lexing.cpp:148-170 | a token is in the result of `scan_tokens` exactly when the loop constructed it and it is neither whitespace nor a comment |
| ScanProperties.ScanShape | src/lexing.cpp:148-170 | `scan_tokens` returns at least one token and no whitespace or comment; it ends with exactly one end-of-input token with the empty lexeme, or with an invalid token and nothing after it, which is the empty token at a character that starts no lexeme or the whole rest of the input from a quote that starts no string literal |
| ScanProperties.ScanWellFormed | src/lexing.cpp:148-170 | every returned token except an invalid one is a well-formed lexeme of its kind |
| ScanProperties.SpaceAfterNewline | src/lexing.cpp:116-165 | the run of newline and two spaces counts one newline and moves the cursor to column 0 of the next line |
| ScanProperties.ScanWhole | src/lexing.cpp:148-170 | an input that is one emitted lexeme scans to that token and the end-of-input token at the advanced cursor, or to the invalid token alone |
| ScanProperties.ScanUnterminated | src/lexing.cpp:125-129 | the input `"abc` scans to one invalid token holding all of it, with no end-of-input token after it |
| ScanProperties.ScanBangEqual | src/lexing.cpp:85-90 | the input `!=` scans to one `BangEqual` token and end of input at column 2 |
| ScanProperties.ScanEmpty | src/lexing.cpp:168 | the empty input gives the end-of-input token alone, at column 0 of line 0 |

## Left out

- File reading, the interactive read loop, token printing and argument
  dispatch (`src/entrypoint.cpp`, `src/execution.cpp`, `app/main.cpp`) are
  input/output with no scanning logic, so they are not part of this model.
- `include/dist/exception.hpp` declares an unused class without logic, so it
  is not part of this model. `include/dist/lexing.hpp` only declares
  `scan_tokens`, which is modelled.
- RE2 is not modelled as a regex engine. Only the two concrete patterns
  are modelled, each as a scanner with the semantics RE2 gives it.
- `std::string_view` borrowing and lifetime are not modelled: a lexeme is
  a copy of the text, not a view into the input.
- Locale-dependent `isalpha`/`isdigit` and the undefined behaviour of
  passing them a negative `char` are not modelled. Characters are
  classified as ASCII.
- Multi-byte encodings are not modelled: every `char` of the input is one
  character.
- Lexing.ScanTokens: the output vector is a `seq` that the loop reassigns,
  not a buffer appended to in place, since nothing else holds a reference
  to it.
- Lexing.ScanToken: strings use the anchored match. The code's unanchored
  match is modelled separately, as `Lexing.StrLiteralSizeAsWritten`, and
  shown to differ (see "## Findings").

## Findings

| source | as written | input that shows it | evidently intended | confidence | as-written member | corrected member |
|---|---|---|---|---|---|---|
| src/lexing.cpp:29-31 | `RE2::PartialMatch` searches for the string pattern anywhere in the view, and the size of that match is used as the size of a token sliced from index 0 | the five characters `"`, `\`, newline, `"`, `"`: no literal starts at index 0, because the backslash cannot escape a newline, but `""` matches at index 3, so a string token of size 2 with text `"\` is produced | the match anchored at index 0, so this view is an unterminated string (invalid, taking the whole view) | not executed | LexingSpec.AsWrittenMisplacesLiteral | LexingSpec.StrLiteralSizeSound |
