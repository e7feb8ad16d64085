/**
 * What `scan_tokens` (src/lexing.cpp) promises about the whole token
 * stream: its shape, that the lexemes spell out the input, that every
 * token is the longest well-formed lexeme at its offset, and how the
 * cursor moves from one token to the next.
 */
module ScanProperties {
  import opened Tokens
  import opened Lexing
  import opened LexingSpec
  import opened ClassifierSpec

  function Last(ts: seq<Token>): Token
    requires |ts| > 0
  {
    ts[|ts| - 1]
  }

  /** The kinds that end the stream. */
  predicate IsFinal(k: TokenKind) { k == Eof || k == Invalid }

  /** A non-empty stream that ends with its only end-of-input or invalid
      token, where an end-of-input token has the empty lexeme. */
  predicate Shaped(ts: seq<Token>) {
    && |ts| > 0
    && IsFinal(Last(ts).kind)
    && (forall i :: 0 <= i < |ts| - 1 ==> !IsFinal(ts[i].kind))
    && (Last(ts).kind == Eof ==> Last(ts).lexeme == "")
  }

  /** The lexemes of a stream, joined. */
  function Concat(ts: seq<Token>): string
  {
    if |ts| == 0 then "" else ts[0].lexeme + Concat(ts[1..])
  }

  /** The lines a token moves the cursor on by: the classifier's count. */
  function Newlines(t: Token): nat
  {
    if t.kind == Comment then 1 else Count(t.lexeme, '\n')
  }

  /** A comment that is not ended by a newline: the input ends inside it. */
  predicate IsUnendedComment(t: Token) { t.kind == Comment && '\n' !in t.lexeme }

  // ---------------------------------------------------------------------
  // Small facts about the stream functions
  // ---------------------------------------------------------------------

  lemma ConcatCons(t: Token, ts: seq<Token>)
    ensures Concat([t] + ts) == t.lexeme + Concat(ts)
  {
    assert ([t] + ts)[1..] == ts;
  }

  lemma PrefixCons(t: Token, ts: seq<Token>, i: nat)
    requires 0 < i <= |ts| + 1
    ensures ([t] + ts)[..i] == [t] + ts[..i - 1]
  {
  }

  lemma ShapedCons(t: Token, ts: seq<Token>)
    requires Shaped(ts) && !IsFinal(t.kind)
    ensures Shaped([t] + ts)
  {
    var all := [t] + ts;
    assert Last(all) == Last(ts);
    forall i | 0 <= i < |all| - 1
      ensures !IsFinal(all[i].kind)
    {
      if i > 0 {
        assert all[i] == ts[i - 1];
      }
    }
  }

  // ---------------------------------------------------------------------
  // The stream the loop constructs, before filtering
  // ---------------------------------------------------------------------

  /** The loop stops after one invalid token, or else after the input is
      consumed, with one end-of-input token. */
  lemma {:induction false} TraceShape(code: string, pos: nat, line: nat)
    ensures Shaped(Trace(code, pos, line))
    decreases |code|
  {
    if |code| > 0 {
      TraceStep(code, pos, line);
      var c := ScanToken(code);
      if c.kind != Invalid {
        var next := Advance(pos, line, c);
        TraceShape(code[c.size..], next.0, next.1);
        ShapedCons(Token(c.kind, code[..c.size], pos, line), Trace(code[c.size..], next.0, next.1));
      }
    }
  }

  /** The lexemes of `tr` spell out `code`: all of it when the stream ends
      with end of input or with an unterminated string, and up to a
      character that begins no lexeme otherwise. */
  predicate Spells(tr: seq<Token>, code: string)
    requires |tr| > 0
  {
    var text := Concat(tr);
    && text <= code
    && (Last(tr).kind == Eof || Last(tr).lexeme != "" ==> text == code)
    && (Last(tr).kind == Invalid && Last(tr).lexeme == "" ==> |text| < |code| && !StartsLexeme(code[|text|]))
  }

  lemma SpellsCons(t: Token, rest: seq<Token>, code: string, n: nat)
    requires n <= |code| && t.lexeme == code[..n] && |rest| > 0 && Spells(rest, code[n..])
    ensures Spells([t] + rest, code)
  {
    ConcatCons(t, rest);
    assert Last([t] + rest) == Last(rest);
    assert code == code[..n] + code[n..];
  }

  lemma SpellsInvalid(code: string, pos: nat, line: nat)
    requires |code| > 0 && ScanToken(code).kind == Invalid
    ensures Spells(Trace(code, pos, line), code)
  {
    TraceStep(code, pos, line);
    var c := ScanToken(code);
    ConcatCons(Token(c.kind, code[..c.size], pos, line), []);
    ScanTokenInvalid(code);
  }

  lemma {:induction false} TraceReconstructs(code: string, pos: nat, line: nat)
    ensures Spells(Trace(code, pos, line), code)
    decreases |code|
  {
    if |code| == 0 {
      assert Concat(Trace(code, pos, line)) == "";
    } else if ScanToken(code).kind == Invalid {
      SpellsInvalid(code, pos, line);
    } else {
      TraceStep(code, pos, line);
      var c := ScanToken(code);
      var next := Advance(pos, line, c);
      TraceReconstructs(code[c.size..], next.0, next.1);
      SpellsCons(Token(c.kind, code[..c.size], pos, line), Trace(code[c.size..], next.0, next.1), code, c.size);
    }
  }

  /** Token `t` stops the scan at offset `off` of `code`: it is the empty
      invalid token at a character that begins no lexeme, or the rest of
      the input from a quote that begins no string literal. */
  predicate StopsAt(t: Token, code: string, off: nat)
  {
    && off < |code|
    && ((t.lexeme == "" && !StartsLexeme(code[off]))
        || (&& code[off] == '"' && t.lexeme == code[off..]
            && forall j :: off <= j <= |code| ==> !IsStringLiteral(code[off..j])))
  }

  /** A stream that ends with an invalid token ends where the text of the
      tokens before it ends, at one of the two places the scan stops. */
  predicate StopsAtTrigger(tr: seq<Token>, code: string)
    requires |tr| > 0
  {
    Last(tr).kind == Invalid ==> StopsAt(Last(tr), code, |Concat(tr[..|tr| - 1])|)
  }

  lemma StopsInvalid(code: string, pos: nat, line: nat)
    requires |code| > 0 && ScanToken(code).kind == Invalid
    ensures StopsAtTrigger(Trace(code, pos, line), code)
  {
    TraceStep(code, pos, line);
    var c := ScanToken(code);
    var tr := Trace(code, pos, line);
    assert tr[..0] == [] && Concat([]) == "";
    ScanTokenInvalid(code);
    assert code[0..] == code && code[..|code|] == code;
    forall j | 0 <= j <= |code|
      ensures !IsStringLiteral(code[0..j]) <==> !IsStringLiteral(code[..j])
    {
      assert code[0..j] == code[..j];
    }
  }

  lemma StopsCons(t: Token, rest: seq<Token>, code: string)
    requires |t.lexeme| <= |code| && t.kind != Invalid && |rest| > 0
    requires StopsAtTrigger(rest, code[|t.lexeme|..])
    ensures StopsAtTrigger([t] + rest, code)
  {
    var tr, n := [t] + rest, |t.lexeme|;
    assert Last(tr) == Last(rest);
    if Last(rest).kind == Invalid {
      PrefixCons(t, rest, |rest|);
      ConcatCons(t, rest[..|rest| - 1]);
      var off', tail := |Concat(rest[..|rest| - 1])|, code[n..];
      assert StopsAt(Last(rest), tail, off');
      var off := n + off';
      assert tail[off'] == code[off] && tail[off'..] == code[off..];
      forall j | off <= j <= |code|
        ensures !IsStringLiteral(code[off..j])
      {
        assert tail[off'..j - n] == code[off..j];
      }
    }
  }

  /** A stream that ends with an invalid token stops where `scan_token`
      found a character that begins no lexeme or an unterminated string. */
  lemma {:induction false} TraceStops(code: string, pos: nat, line: nat)
    ensures StopsAtTrigger(Trace(code, pos, line), code)
    decreases |code|
  {
    if |code| > 0 {
      if ScanToken(code).kind == Invalid {
        StopsInvalid(code, pos, line);
      } else {
        TraceStep(code, pos, line);
        var c := ScanToken(code);
        var next := Advance(pos, line, c);
        TraceStops(code[c.size..], next.0, next.1);
        StopsCons(Token(c.kind, code[..c.size], pos, line), Trace(code[c.size..], next.0, next.1), code);
      }
    }
  }

  /** The cursor starts where it is given and moves from one token to the
      next past the lexeme, or to column 0 of a later line when the token
      counts newlines. */
  lemma {:induction false} TraceCursor(code: string, pos: nat, line: nat)
    ensures var tr := Trace(code, pos, line);
            && tr[0].pos == pos && tr[0].line == line
            && forall i :: 0 <= i < |tr| - 1 ==>
                 && tr[i + 1].line == tr[i].line + Newlines(tr[i])
                 && tr[i + 1].pos == if Newlines(tr[i]) == 0 then tr[i].pos + |tr[i].lexeme| else 0
    decreases |code|
  {
    if |code| > 0 {
      TraceStep(code, pos, line);
      var c := ScanToken(code);
      if c.kind != Invalid {
        var t := Token(c.kind, code[..c.size], pos, line);
        var next := Advance(pos, line, c);
        var rest := Trace(code[c.size..], next.0, next.1);
        TraceCursor(code[c.size..], next.0, next.1);
        ScanTokenNewlines(code);
        assert Newlines(t) == c.newlines;
        var tr := [t] + rest;
        forall i | 0 < i < |tr| - 1
          ensures tr[i + 1].line == tr[i].line + Newlines(tr[i])
          ensures tr[i + 1].pos == if Newlines(tr[i]) == 0 then tr[i].pos + |tr[i].lexeme| else 0
        {
          assert tr[i] == rest[i - 1] && tr[i + 1] == rest[i];
        }
      }
    }
  }

  /** Token `t` was scanned at offset `off` of `code`: its lexeme is the text
      there, and unless it is invalid it is a well-formed lexeme that cannot
      be extended. */
  predicate ScannedAt(t: Token, code: string, off: nat)
  {
    && off + |t.lexeme| <= |code|
    && t.lexeme == code[off..off + |t.lexeme|]
    && (t.kind != Invalid ==> WellFormed(t.kind, t.lexeme) && Longest(t.kind, code[off..], |t.lexeme|))
  }

  lemma ScannedAtShift(t: Token, code: string, n: nat, off: nat)
    requires n <= |code| && ScannedAt(t, code[n..], off)
    ensures ScannedAt(t, code, n + off)
  {
    assert code[n..][off..] == code[n + off..];
    assert code[n..][off..off + |t.lexeme|] == code[n + off..n + off + |t.lexeme|];
  }

  lemma ScannedFirst(code: string, pos: nat, line: nat)
    requires |code| > 0
    ensures var c := ScanToken(code);
            ScannedAt(Token(c.kind, code[..c.size], pos, line), code, 0)
  {
    ScanTokenSound(code);
    var c := ScanToken(code);
    assert code[0..c.size] == code[..c.size];
    assert code[0..] == code;
  }

  /** Every token of `tr` but the end-of-input one was scanned where the
      text of the tokens before it ends. */
  predicate AllScanned(tr: seq<Token>, code: string)
  {
    forall i :: 0 <= i < |tr| && tr[i].kind != Eof ==> ScannedAt(tr[i], code, |Concat(tr[..i])|)
  }

  lemma ScannedConsAt(t: Token, rest: seq<Token>, code: string, i: nat)
    requires |t.lexeme| <= |code| && 0 < i <= |rest|
    requires ScannedAt(rest[i - 1], code[|t.lexeme|..], |Concat(rest[..i - 1])|)
    ensures ScannedAt(([t] + rest)[i], code, |Concat(([t] + rest)[..i])|)
  {
    PrefixCons(t, rest, i);
    ConcatCons(t, rest[..i - 1]);
    ScannedAtShift(rest[i - 1], code, |t.lexeme|, |Concat(rest[..i - 1])|);
  }

  lemma AllScannedCons(t: Token, rest: seq<Token>, code: string)
    requires |t.lexeme| <= |code| && ScannedAt(t, code, 0) && AllScanned(rest, code[|t.lexeme|..])
    ensures AllScanned([t] + rest, code)
  {
    var tr := [t] + rest;
    assert tr[..0] == [] && Concat([]) == "";
    forall i | 0 < i < |tr| && tr[i].kind != Eof
      ensures ScannedAt(tr[i], code, |Concat(tr[..i])|)
    {
      assert tr[i] == rest[i - 1];
      ScannedConsAt(t, rest, code, i);
    }
  }

  /** Every token but the end-of-input one is the lexeme that `scan_token`
      classifies at the offset where the text of the earlier tokens ends:
      the longest well-formed lexeme there, by maximal munch. */
  lemma {:induction false} TraceMaximalMunch(code: string, pos: nat, line: nat)
    ensures AllScanned(Trace(code, pos, line), code)
    decreases |code|
  {
    if |code| == 0 {
      assert Trace(code, pos, line) == [Token(Eof, "", pos, line)];
    } else {
      TraceStep(code, pos, line);
      var c := ScanToken(code);
      var t := Token(c.kind, code[..c.size], pos, line);
      ScannedFirst(code, pos, line);
      if c.kind == Invalid {
        AllScannedCons(t, [], code);
        assert [t] + [] == [t];
      } else {
        var next := Advance(pos, line, c);
        TraceMaximalMunch(code[c.size..], next.0, next.1);
        AllScannedCons(t, Trace(code[c.size..], next.0, next.1), code);
      }
    }
  }

  /** The stream ends, before its end-of-input token, with a comment the
      input ends inside. */
  predicate EndsInUnendedComment(tr: seq<Token>)
  {
    |tr| >= 2 && IsUnendedComment(tr[|tr| - 2])
  }

  /** Each token of `tr` but the end-of-input one sits on line `line0` plus
      the newlines in the text before it; the end-of-input token sits on
      `line0` plus the newlines of all of `code`, plus one when the input
      ends inside a comment. */
  predicate LinesCounted(tr: seq<Token>, code: string, line0: nat)
    requires |tr| > 0
  {
    && (forall i :: 0 <= i < |tr| && tr[i].kind != Eof ==> tr[i].line == line0 + Count(Concat(tr[..i]), '\n'))
    && (Last(tr).kind == Eof ==>
          Last(tr).line == line0 + Count(code, '\n') + if EndsInUnendedComment(tr) then 1 else 0)
  }

  lemma LinesCons(t: Token, rest: seq<Token>, code: string, line0: nat)
    requires |t.lexeme| <= |code| && t.lexeme == code[..|t.lexeme|] && t.line == line0 && t.kind != Eof
    requires t.kind == Comment ==> IsComment(t.lexeme)
    requires IsUnendedComment(t) ==> |t.lexeme| == |code| && |rest| == 1 && rest[0].kind == Eof
    requires |rest| > 0 && LinesCounted(rest, code[|t.lexeme|..], line0 + Newlines(t))
    ensures LinesCounted([t] + rest, code, line0)
  {
    var n := |t.lexeme|;
    var tr := [t] + rest;
    if t.kind == Comment {
      CommentCount(t.lexeme);
    }
    assert !IsUnendedComment(t) ==> Newlines(t) == Count(t.lexeme, '\n');
    assert code == t.lexeme + code[n..];
    CountAppend(t.lexeme, code[n..], '\n');
    assert tr[..0] == [] && Concat([]) == "";
    forall i | 0 < i < |tr| && tr[i].kind != Eof
      ensures tr[i].line == line0 + Count(Concat(tr[..i]), '\n')
    {
      PrefixCons(t, rest, i);
      ConcatCons(t, rest[..i - 1]);
      CountAppend(t.lexeme, Concat(rest[..i - 1]), '\n');
      assert tr[i] == rest[i - 1];
    }
    assert Last(tr) == Last(rest);
    if |rest| >= 2 {
      assert tr[|tr| - 2] == rest[|rest| - 2];
    }
  }

  /** A comment token is a comment, and one without a newline runs to the
      end of the input. */
  lemma CommentToken(code: string)
    requires |code| > 0 && ScanToken(code).kind == Comment
    ensures var n := ScanToken(code).size;
            && IsComment(code[..n])
            && ('\n' !in code[..n] ==> n == |code| && code[n..] == [])
  {
    ScanTokenSound(code);
    var n := ScanToken(code).size;
    CommentSizeSpec(code);
    if 0 < n && code[n - 1] == '\n' {
      assert code[..n][n - 1] == '\n';
    }
  }

  /** Lines counted by `scan_tokens` are the newlines before each token; only
      the end-of-input token after a comment that the input ends inside is
      one line further on, because the classifier counts one newline for
      every comment. */
  lemma {:induction false} TraceLines(code: string, pos: nat, line: nat)
    ensures LinesCounted(Trace(code, pos, line), code, line)
    decreases |code|
  {
    if |code| == 0 {
      assert Trace(code, pos, line) == [Token(Eof, "", pos, line)];
    } else {
      TraceStep(code, pos, line);
      var c := ScanToken(code);
      var t := Token(c.kind, code[..c.size], pos, line);
      if c.kind == Invalid {
        assert Trace(code, pos, line) == [t];
        assert [t][..0] == [] && Concat([]) == "";
      } else {
        var next := Advance(pos, line, c);
        ScanTokenNewlines(code);
        assert next.1 == line + Newlines(t);
        if c.kind == Comment {
          CommentToken(code);
        }
        TraceLines(code[c.size..], next.0, next.1);
        LinesCons(t, Trace(code[c.size..], next.0, next.1), code, line);
      }
    }
  }

  // ---------------------------------------------------------------------
  // The filtered result of `scan_tokens`
  // ---------------------------------------------------------------------

  predicate AllEmitted(ts: seq<Token>) {
    forall i :: 0 <= i < |ts| ==> IsEmitted(ts[i].kind)
  }

  lemma VisibleCons(tr: seq<Token>)
    requires |tr| > 0
    ensures Visible(tr) == (if IsEmitted(tr[0].kind) then [tr[0]] else []) + Visible(tr[1..])
  {
  }

  lemma ShapedTail(tr: seq<Token>)
    requires Shaped(tr) && |tr| > 1
    ensures Shaped(tr[1..]) && Last(tr[1..]) == Last(tr) && !IsFinal(tr[0].kind)
  {
    var rest := tr[1..];
    forall i | 0 <= i < |rest| - 1
      ensures !IsFinal(rest[i].kind)
    {
      assert rest[i] == tr[i + 1];
    }
  }

  lemma EmittedCons(t: Token, out: seq<Token>)
    requires Shaped(out) && AllEmitted(out) && !IsFinal(t.kind) && IsEmitted(t.kind)
    ensures Shaped([t] + out) && AllEmitted([t] + out) && Last([t] + out) == Last(out)
  {
    ShapedCons(t, out);
    assert forall i :: 0 < i < |out| + 1 ==> ([t] + out)[i] == out[i - 1];
  }

  lemma {:induction false} VisibleShape(tr: seq<Token>)
    requires Shaped(tr)
    ensures var out := Visible(tr);
            Shaped(out) && Last(out) == Last(tr) && AllEmitted(out)
  {
    VisibleCons(tr);
    if |tr| == 1 {
      assert tr[1..] == [];
      assert Visible(tr) == [tr[0]];
    } else {
      ShapedTail(tr);
      VisibleShape(tr[1..]);
      if IsEmitted(tr[0].kind) {
        EmittedCons(tr[0], Visible(tr[1..]));
      }
    }
  }

  lemma {:induction false} VisibleSubset(tr: seq<Token>)
    ensures forall t :: t in Visible(tr) ==> t in tr
  {
    if |tr| > 0 {
      VisibleAppend([tr[0]], tr[1..]);
      VisibleSingle(tr[0]);
      assert tr == [tr[0]] + tr[1..];
      VisibleSubset(tr[1..]);
    }
  }

  /** Conversely, every constructed token other than whitespace or a
      comment is kept. */
  lemma {:induction false} VisibleComplete(tr: seq<Token>)
    ensures forall t :: t in tr && IsEmitted(t.kind) ==> t in Visible(tr)
  {
    if |tr| > 0 {
      VisibleCons(tr);
      VisibleComplete(tr[1..]);
      forall t | t in tr && IsEmitted(t.kind)
        ensures t in Visible(tr)
      {
        if t != tr[0] {
          var i :| 0 <= i < |tr| && tr[i] == t;
          assert tr[1..][i - 1] == t;
        }
      }
    }
  }

  /** The `i`-th constructed token, when it is kept, is the output token
      whose index is the number of tokens kept before it: the output keeps
      the order of construction. */
  lemma ScanOrder(code: string, i: nat)
    requires i < |Trace(code, 0, 0)| && IsEmitted(Trace(code, 0, 0)[i].kind)
    ensures var tr := Trace(code, 0, 0);
            var j := |Visible(tr[..i])|;
            j < |Scan(code)| && Scan(code)[j] == tr[i]
  {
    var tr := Trace(code, 0, 0);
    assert tr == tr[..i] + tr[i..];
    VisibleAppend(tr[..i], tr[i..]);
    VisibleCons(tr[i..]);
  }

  /** `scan_tokens` returns at least one token; no whitespace or comment;
      and exactly one end-of-input token, last and with the empty lexeme,
      or else an invalid token, last, found at a character that begins no
      lexeme or at a quote that begins no string literal. */
  lemma ScanShape(code: string)
    ensures var ts := Scan(code);
            && Shaped(ts)
            && (forall i :: 0 <= i < |ts| ==> ts[i].kind != Space && ts[i].kind != Comment)
            && (Last(ts).kind == Invalid ==> exists off: nat :: StopsAt(Last(ts), code, off))
  {
    var tr := Trace(code, 0, 0);
    TraceShape(code, 0, 0);
    VisibleShape(tr);
    TraceStops(code, 0, 0);
    if Last(tr).kind == Invalid {
      assert StopsAt(Last(Scan(code)), code, |Concat(tr[..|tr| - 1])|);
    }
  }

  /** `scan_tokens` returns exactly the constructed tokens that are not
      whitespace or comments. */
  lemma ScanKeeps(code: string)
    ensures forall t :: t in Scan(code) <==> t in Trace(code, 0, 0) && IsEmitted(t.kind)
  {
    var tr := Trace(code, 0, 0);
    VisibleSubset(tr);
    VisibleComplete(tr);
    VisibleShape(tr) by { TraceShape(code, 0, 0); }
    forall t | t in Scan(code)
      ensures IsEmitted(t.kind)
    {
      var i :| 0 <= i < |Scan(code)| && Scan(code)[i] == t;
    }
  }

  /** Every token `scan_tokens` returns, but for an invalid one, is a
      well-formed lexeme of its kind. */
  lemma ScanWellFormed(code: string)
    ensures forall t :: t in Scan(code) && t.kind != Invalid ==> WellFormed(t.kind, t.lexeme)
  {
    var tr := Trace(code, 0, 0);
    TraceMaximalMunch(code, 0, 0);
    VisibleSubset(tr);
    forall t | t in Scan(code) && t.kind != Invalid
      ensures WellFormed(t.kind, t.lexeme)
    {
      var i :| 0 <= i < |tr| && tr[i] == t;
      if t.kind == Eof {
        TraceShape(code, 0, 0);
        assert i == |tr| - 1;
      }
    }
  }

  // ---------------------------------------------------------------------
  // Examples
  // ---------------------------------------------------------------------

  /** A whitespace run that holds a newline puts the cursor at column 0 of
      the next line, whatever spaces follow the newline in the run: after
      "a", the run of "\n  b" leaves the "b" at column 0 of line 1. */
  lemma SpaceAfterNewline()
    ensures ScanToken("\n  b") == Classification(Space, 3, 1)
    ensures Advance(1, 0, ScanToken("\n  b")) == (0, 1)
  {
    var code := "\n  b";
    assert Span(code, IsSpace) == 3;
    assert code[..3] == "\n  ";
    assert Count("\n  ", '\n') == 1;
    ClassifySpace(code);
  }

  /** A view that is one emitted lexeme scans to that token, followed by
      the end-of-input token at the advanced cursor unless it is invalid. */
  lemma ScanWhole(code: string)
    requires |code| > 0 && ScanToken(code).size == |code| && IsEmitted(ScanToken(code).kind)
    ensures var c := ScanToken(code);
            var next := Advance(0, 0, c);
            Scan(code) == if c.kind == Invalid then [Token(Invalid, code, 0, 0)]
                          else [Token(c.kind, code, 0, 0), Token(Eof, "", next.0, next.1)]
  {
    var c := ScanToken(code);
    var next := Advance(0, 0, c);
    VisibleStep(code, 0, 0);
    assert code[..c.size] == code;
    if c.kind != Invalid {
      assert code[c.size..] == "";
      VisibleSingle(Token(Eof, "", next.0, next.1));
    }
  }

  /** An unterminated string is one invalid token taking the whole input,
      and no end-of-input token follows it. */
  lemma ScanUnterminated()
    ensures Scan("\"abc") == [Token(Invalid, "\"abc", 0, 0)]
  {
    var code :| code == "\"abc";
    assert StringEnd(code, 1) == None;
    ClassifyString(code);
    ScanWhole(code);
  }

  /** "!=" is one two-character operator, and end of input is at column 2. */
  lemma ScanBangEqual()
    ensures Scan("!=") == [Token(BangEqual, "!=", 0, 0), Token(Eof, "", 2, 0)]
  {
    var code :| code == "!=";
    ClassifyOperator(code);
    ScanWhole(code);
  }

  /** The empty input scans to the end-of-input token alone. */
  lemma ScanEmpty()
    ensures Scan("") == [Token(Eof, "", 0, 0)]
  {
    VisibleSingle(Token(Eof, "", 0, 0));
  }
}
