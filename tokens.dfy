/**
 * The token kinds and the token record that the scanner produces
 * (include/dist/token.hpp).
 *
 * `token_type` is a closed C++ enumeration; its kinds are listed here in
 * declaration order, so a kind's ordinal is its underlying enum value.
 * `token` has four `const` fields set once by its constructor; a Dafny
 * datatype value is immutable in the same way.
 */
module Tokens {

  datatype TokenKind =
    // single-character punctuation
    | LeftParen | RightParen | LeftBrace | RightBrace | Comma | Dot
    | Minus | Plus | Semicolon | Slash | Star
    // one- or two-character operators
    | Bang | BangEqual | Equal | EqualEqual
    | Greater | GreaterEqual | Less | LessEqual
    // literals
    | Identifier | String | Number
    // keywords
    | And | Class | Else | False | Fun | For | If | Null | Or
    | Print | Return | Super | This | True | Var | While
    // end of input, error, and the two kinds the scanner filters out
    | Eof | Invalid | Comment | Space

  /** A scanned token: its kind, the text it was scanned from, and the
      column and line (both zero-based) at which that text begins. */
  datatype Token = Token(kind: TokenKind, lexeme: string, pos: nat, line: nat)

  /** The constructor stores exactly its four arguments, and a token is
      determined by them: two tokens are equal exactly when their kinds,
      lexemes, columns and lines are. */
  lemma TokenFields(kind: TokenKind, lexeme: string, pos: nat, line: nat, other: Token)
    ensures var t := Token(kind, lexeme, pos, line);
            && t.kind == kind && t.lexeme == lexeme && t.pos == pos && t.line == line
            && (t == other <==> other.kind == kind && other.lexeme == lexeme && other.pos == pos && other.line == line)
  {
  }

  /** Number of kinds in the enumeration. */
  const KindCount: nat := 42

  /** The underlying value of a kind in the C++ enumeration. */
  function Ordinal(k: TokenKind): (n: nat)
    ensures n < KindCount
  {
    match k
    case LeftParen => 0
    case RightParen => 1
    case LeftBrace => 2
    case RightBrace => 3
    case Comma => 4
    case Dot => 5
    case Minus => 6
    case Plus => 7
    case Semicolon => 8
    case Slash => 9
    case Star => 10
    case Bang => 11
    case BangEqual => 12
    case Equal => 13
    case EqualEqual => 14
    case Greater => 15
    case GreaterEqual => 16
    case Less => 17
    case LessEqual => 18
    case Identifier => 19
    case String => 20
    case Number => 21
    case And => 22
    case Class => 23
    case Else => 24
    case False => 25
    case Fun => 26
    case For => 27
    case If => 28
    case Null => 29
    case Or => 30
    case Print => 31
    case Return => 32
    case Super => 33
    case This => 34
    case True => 35
    case Var => 36
    case While => 37
    case Eof => 38
    case Invalid => 39
    case Comment => 40
    case Space => 41
  }

  datatype Option<T> = None | Some(value: T)

  /** The kind whose underlying value is `n`, if there is one. */
  function FromOrdinal(n: nat): (r: Option<TokenKind>)
    ensures r.Some? <==> n < KindCount
    ensures r.Some? ==> Ordinal(r.value) == n
  {
    if n < 11 then Some(PunctuationAt(n))
    else if n < 19 then Some(OperatorAt(n))
    else if n < 22 then Some(LiteralAt(n))
    else if n < 38 then Some(KeywordAt(n))
    else if n < 42 then Some(ControlAt(n))
    else None
  }

  function PunctuationAt(n: nat): (k: TokenKind)
    requires 0 <= n < 11
    ensures Ordinal(k) == n
  {
    match n
    case 0 => LeftParen
    case 1 => RightParen
    case 2 => LeftBrace
    case 3 => RightBrace
    case 4 => Comma
    case 5 => Dot
    case 6 => Minus
    case 7 => Plus
    case 8 => Semicolon
    case 9 => Slash
    case _ => Star
  }

  function OperatorAt(n: nat): (k: TokenKind)
    requires 11 <= n < 19
    ensures Ordinal(k) == n
  {
    match n
    case 11 => Bang
    case 12 => BangEqual
    case 13 => Equal
    case 14 => EqualEqual
    case 15 => Greater
    case 16 => GreaterEqual
    case 17 => Less
    case _ => LessEqual
  }

  function LiteralAt(n: nat): (k: TokenKind)
    requires 19 <= n < 22
    ensures Ordinal(k) == n
  {
    match n
    case 19 => Identifier
    case 20 => String
    case _ => Number
  }

  function KeywordAt(n: nat): (k: TokenKind)
    requires 22 <= n < 38
    ensures Ordinal(k) == n
  {
    if n < 30 then FirstKeywordsAt(n) else LastKeywordsAt(n)
  }

  function FirstKeywordsAt(n: nat): (k: TokenKind)
    requires 22 <= n < 30
    ensures Ordinal(k) == n
  {
    match n
    case 22 => And
    case 23 => Class
    case 24 => Else
    case 25 => False
    case 26 => Fun
    case 27 => For
    case 28 => If
    case _ => Null
  }

  function LastKeywordsAt(n: nat): (k: TokenKind)
    requires 30 <= n < 38
    ensures Ordinal(k) == n
  {
    match n
    case 30 => Or
    case 31 => Print
    case 32 => Return
    case 33 => Super
    case 34 => This
    case 35 => True
    case 36 => Var
    case _ => While
  }

  function ControlAt(n: nat): (k: TokenKind)
    requires 38 <= n < 42
    ensures Ordinal(k) == n
  {
    match n
    case 38 => Eof
    case 39 => Invalid
    case 40 => Comment
    case _ => Space
  }

  /** Ordinal and FromOrdinal are inverse: every kind has its own value in 0..41. */
  lemma OrdinalRoundTrip(k: TokenKind)
    ensures FromOrdinal(Ordinal(k)) == Some(k)
  {
  }

  /** The 42 kinds are distinct: no two share an underlying value. */
  lemma OrdinalInjective(a: TokenKind, b: TokenKind)
    requires Ordinal(a) == Ordinal(b)
    ensures a == b
  {
    OrdinalRoundTrip(a);
    OrdinalRoundTrip(b);
  }

  predicate IsPunctuation(k: TokenKind) {
    k in {LeftParen, RightParen, LeftBrace, RightBrace, Comma, Dot, Minus, Plus, Semicolon, Slash, Star}
  }

  predicate IsOperator(k: TokenKind) {
    k in {Bang, BangEqual, Equal, EqualEqual, Greater, GreaterEqual, Less, LessEqual}
  }

  predicate IsLiteral(k: TokenKind) {
    k in {Identifier, String, Number}
  }

  predicate IsKeyword(k: TokenKind) {
    k in {And, Class, Else, False, Fun, For, If, Null, Or, Print, Return, Super, This, True, Var, While}
  }

  /** The kinds form contiguous groups in declaration order: 11 punctuation,
      8 operator, 3 literal and 16 keyword kinds, then end of input, invalid,
      comment and whitespace. */
  lemma KindGroups(k: TokenKind)
    ensures IsPunctuation(k) <==> Ordinal(k) < 11
    ensures IsOperator(k) <==> 11 <= Ordinal(k) < 19
    ensures IsLiteral(k) <==> 19 <= Ordinal(k) < 22
    ensures IsKeyword(k) <==> 22 <= Ordinal(k) < 38
    ensures k == Eof <==> Ordinal(k) == 38
    ensures k == Invalid <==> Ordinal(k) == 39
    ensures k == Comment <==> Ordinal(k) == 40
    ensures k == Space <==> Ordinal(k) == 41
  {
    match k
    case _ =>
  }

  /** The fixed text of punctuation, operator and keyword kinds. */
  function Spelling(k: TokenKind): Option<string>
  {
    if IsKeyword(k) then Some(KeywordSpelling(k)) else SymbolSpelling(k)
  }

  function SymbolSpelling(k: TokenKind): Option<string>
  {
    match k
    case LeftParen => Some("(")
    case RightParen => Some(")")
    case LeftBrace => Some("{")
    case RightBrace => Some("}")
    case Comma => Some(",")
    case Dot => Some(".")
    case Minus => Some("-")
    case Plus => Some("+")
    case Semicolon => Some(";")
    case Slash => Some("/")
    case Star => Some("*")
    case Bang => Some("!")
    case BangEqual => Some("!=")
    case Equal => Some("=")
    case EqualEqual => Some("==")
    case Greater => Some(">")
    case GreaterEqual => Some(">=")
    case Less => Some("<")
    case LessEqual => Some("<=")
    case _ => None
  }

  function KeywordSpelling(k: TokenKind): string
    requires IsKeyword(k)
  {
    match k
    case And => "and"
    case Class => "class"
    case Else => "else"
    case False => "false"
    case Fun => "function"
    case For => "for"
    case If => "if"
    case Null => "null"
    case Or => "or"
    case Print => "print"
    case Return => "return"
    case Super => "super"
    case This => "this"
    case True => "true"
    case Var => "var"
    case _ => "while"
  }
}
