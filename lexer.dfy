/** The tokenizer (internal/lexer/lexer.go): a byte-indexed scanner that turns
    source text into tokens. The specification of one iteration of its main
    loop is Step; LexFrom strings the iterations together, and the Lexer
    class runs the same loop imperatively and is proved to produce exactly
    LexFrom's tokens. */
module Lexer {
  import opened Text

  datatype TokenType =
    | TokenPrint | TokenAssign | TokenEqual | TokenMain | TokenTry | TokenCatch | TokenTryStart
    | TokenFunction | TokenReturn | TokenInterpolate | TokenMult | TokenNumPlus | TokenConcat
    | TokenIdentifier | TokenString | TokenNumber | TokenBoolean
    | TokenLBrace | TokenRBrace | TokenLParen | TokenRParen | TokenComma | TokenEqualSign | TokenPlus
    | TokenEOF
    | TokenTypeNumber | TokenTypeString | TokenTypeBool | TokenTypeAny | TokenTypeColon

  datatype Token = Token(kind: TokenType, value: Bytes)

  const EofToken: Token := Token(TokenEOF, "")

  // The UTF-8 bytes of each emoji lexeme.
  const PrintEmoji: Bytes := ['\U{F0}', '\U{9F}', '\U{96}', '\U{A8}', '\U{EF}', '\U{B8}', '\U{8F}']       // U+1F5A8 U+FE0F
  const AssignEmoji: Bytes := ['\U{E2}', '\U{9C}', '\U{8D}', '\U{EF}', '\U{B8}', '\U{8F}']                // U+270D U+FE0F
  const EqualEmoji: Bytes := ['\U{F0}', '\U{9F}', '\U{9F}', '\U{B0}']                                     // U+1F7F0
  const TryEmoji: Bytes := ['\U{F0}', '\U{9F}', '\U{91}', '\U{A8}', '\U{F0}', '\U{9F}', '\U{8F}', '\U{BF}',
                            '\U{E2}', '\U{80}', '\U{8D}', '\U{F0}', '\U{9F}', '\U{92}', '\U{BB}']         // U+1F468 U+1F3FF U+200D U+1F4BB
  const CatchEmoji: Bytes := ['\U{F0}', '\U{9F}', '\U{A4}', '\U{A6}', '\U{F0}', '\U{9F}', '\U{8F}', '\U{BF}',
                              '\U{E2}', '\U{80}', '\U{8D}', '\U{E2}', '\U{99}', '\U{82}', '\U{EF}', '\U{B8}', '\U{8F}']
                                                                                                          // U+1F926 U+1F3FF U+200D U+2642 U+FE0F
  const TryStartEmoji: Bytes := ['\U{F0}', '\U{9F}', '\U{9A}', '\U{80}']                                  // U+1F680
  const FunctionEmoji: Bytes := ['\U{E2}', '\U{96}', '\U{B6}', '\U{EF}', '\U{B8}', '\U{8F}']              // U+25B6 U+FE0F
  const ReturnEmoji: Bytes := ['\U{E2}', '\U{86}', '\U{A9}', '\U{EF}', '\U{B8}', '\U{8F}']                // U+21A9 U+FE0F
  const MultEmoji: Bytes := ['\U{E2}', '\U{9C}', '\U{96}', '\U{EF}', '\U{B8}', '\U{8F}']                  // U+2716 U+FE0F
  const NumPlusEmoji: Bytes := ['\U{E2}', '\U{9E}', '\U{95}']                                             // U+2795
  const InterpolateEmoji: Bytes := ['\U{F0}', '\U{9F}', '\U{92}', '\U{B1}']                               // U+1F4B1
  const TypeNumberEmoji: Bytes := ['\U{F0}', '\U{9F}', '\U{94}', '\U{A2}']                                // U+1F522
  const TypeStringEmoji: Bytes := ['\U{F0}', '\U{9F}', '\U{93}', '\U{9D}']                                // U+1F4DD
  const TypeBoolEmoji: Bytes := ['\U{E2}', '\U{9A}', '\U{96}', '\U{EF}', '\U{B8}', '\U{8F}']              // U+2696 U+FE0F
  const TypeAnyEmoji: Bytes := ['\U{F0}', '\U{9F}', '\U{97}', '\U{91}', '\U{EF}', '\U{B8}', '\U{8F}']     // U+1F5D1 U+FE0F

  /** The marker that opens an interpolation inside a string literal. */
  const InterpolationOpen: Bytes := InterpolateEmoji + "{"

  /** An emoji lexeme: most yield one token of a fixed kind; the
      interpolation emoji outside a string is skipped. */
  datatype Emoji = Keyword(text: Bytes, kind: TokenType) | Skipped(text: Bytes)

  /** The emoji prefixes in the order the scanner tests them. */
  const Emojis: seq<Emoji> := [
    Keyword(PrintEmoji, TokenPrint), Keyword(AssignEmoji, TokenAssign), Keyword(EqualEmoji, TokenEqual),
    Keyword(TryEmoji, TokenTry), Keyword(CatchEmoji, TokenCatch), Keyword(TryStartEmoji, TokenTryStart),
    Keyword(FunctionEmoji, TokenFunction), Keyword(ReturnEmoji, TokenReturn), Keyword(MultEmoji, TokenMult),
    Keyword(NumPlusEmoji, TokenNumPlus), Skipped(InterpolateEmoji),
    Keyword(TypeNumberEmoji, TokenTypeNumber), Keyword(TypeStringEmoji, TokenTypeString),
    Keyword(TypeBoolEmoji, TokenTypeBool), Keyword(TypeAnyEmoji, TokenTypeAny)]

  lemma EmojisNonEmpty()
    ensures forall e :: e in Emojis ==> |e.text| > 0
  {
  }

  /** The first emoji of `table` that the input at `pos` starts with. */
  function EmojiAt(input: Bytes, pos: nat, table: seq<Emoji>): (r: Option<Emoji>)
    ensures r.Some? ==> r.value in table && StartsWith(input, pos, r.value.text)
    ensures r.None? <==> forall e :: e in table ==> !StartsWith(input, pos, e.text)
  {
    if table == [] then None
    else if StartsWith(input, pos, table[0].text) then Some(table[0])
    else EmojiAt(input, pos, table[1..])
  }

  /** End of the maximal run of letters and digits starting at `i`. */
  function WordEnd(s: Bytes, i: nat): (j: nat)
    requires i <= |s|
    decreases |s| - i
    ensures i <= j <= |s|
    ensures forall k :: i <= k < j ==> IsLetter(s[k]) || IsDigit(s[k])
    ensures j < |s| ==> !IsLetter(s[j]) && !IsDigit(s[j])
  {
    if i < |s| && (IsLetter(s[i]) || IsDigit(s[i])) then WordEnd(s, i + 1) else i
  }

  /** End of the maximal run of digits starting at `i`. */
  function NumberEnd(s: Bytes, i: nat): (j: nat)
    requires i <= |s|
    decreases |s| - i
    ensures i <= j <= |s|
    ensures forall k :: i <= k < j ==> IsDigit(s[k])
    ensures j < |s| ==> !IsDigit(s[j])
  {
    if i < |s| && IsDigit(s[i]) then NumberEnd(s, i + 1) else i
  }

  /** Index of the first `c` at or after `i`, or |s| when there is none. */
  function FindByte(s: Bytes, i: nat, c: Byte): (j: nat)
    requires i <= |s|
    decreases |s| - i
    ensures i <= j <= |s|
    ensures forall k :: i <= k < j ==> s[k] != c
    ensures j < |s| ==> s[j] == c
  {
    if i < |s| && s[i] != c then FindByte(s, i + 1, c) else i
  }

  /** The kind of a letter/digit run: booleans and `main` are reserved. */
  function WordKind(w: Bytes): TokenType
  {
    if w == "true" || w == "false" then TokenBoolean
    else if w == "main" then TokenMain
    else TokenIdentifier
  }

  /** What one iteration of the scanner emits, where it leaves `pos`, and
      whether it ended lexing early (an unterminated string or interpolation). */
  datatype Scan = Scan(tokens: seq<Token>, next: nat, fatal: bool)

  /** The tokens of a whole run of the scanner, and whether it reached the end
      of the input (and so appended EOF). */
  datatype Lexed = Lexed(tokens: seq<Token>, complete: bool)

  /** A scan that first emits `ts`. */
  function Emitting(ts: seq<Token>, s: Scan): Scan
  {
    Scan(ts + s.tokens, s.next, s.fatal)
  }

  lemma EmittingTwice(a: seq<Token>, b: seq<Token>, s: Scan)
    ensures Emitting(a, Emitting(b, s)) == Emitting(a + b, s)
  {
    assert a + (b + s.tokens) == (a + b) + s.tokens;
  }

  function Prepend(ts: seq<Token>, l: Lexed): Lexed
  {
    Lexed(ts + l.tokens, l.complete)
  }

  /** The inner loop that scans a string literal whose current literal chunk
      began at `start`. Each `💱{name}` flushes the chunk as a STRING token and
      emits INTERPOLATE, LBRACE, IDENTIFIER(name), RBRACE; the closing quote
      flushes the last chunk. Running off the end of the input is fatal. */
  function ScanString(input: Bytes, pos: nat, start: nat): (r: Scan)
    requires start <= pos <= |input|
    decreases |input| - pos
    ensures pos <= r.next <= |input|
    ensures !r.fatal ==> pos < r.next
  {
    if pos >= |input| then Scan([], pos, true)
    else if input[pos] == '"' then Scan([Token(TokenString, input[start..pos])], pos + 1, false)
    else if pos + 2 < |input| && StartsWith(input, pos, InterpolationOpen) then
      var h := ScanInterpolation(input, pos, start);
      if h.fatal then h
      else
        Emitting(h.tokens, ScanString(input, h.next, h.next))
    else ScanString(input, pos + 1, start)
  }

  /** One `💱{name}` inside a string literal at `pos`: the pending chunk, the
      marker tokens and, when the brace is closed, the name and RBRACE. An
      unclosed brace is fatal and leaves the scanner at the end of the input. */
  function ScanInterpolation(input: Bytes, pos: nat, start: nat): (r: Scan)
    requires start <= pos && StartsWith(input, pos, InterpolationOpen)
    ensures pos < r.next <= |input|
    ensures r.fatal <==> forall k :: pos + |InterpolationOpen| <= k < |input| ==> input[k] != '}'
    ensures r.fatal ==> r.next == |input|
    ensures !r.fatal ==> input[r.next - 1] == '}'
  {
    var identStart := pos + |InterpolationOpen|;
    var close := FindByte(input, identStart, '}');
    var head := [Token(TokenString, input[start..pos]), Token(TokenInterpolate, InterpolateEmoji), Token(TokenLBrace, "{")];
    if close >= |input| then Scan(head, close, true)
    else Scan(head + [Token(TokenIdentifier, input[identStart..close]), Token(TokenRBrace, "}")], close + 1, false)
  }

  /** ScanString on a byte that is neither the closing quote nor the start
      of an interpolation just moves on. */
  lemma ScanStringPlain(input: Bytes, pos: nat, start: nat)
    requires start <= pos < |input| && input[pos] != '"'
    requires !(pos + 2 < |input| && StartsWith(input, pos, InterpolationOpen))
    ensures ScanString(input, pos, start) == ScanString(input, pos + 1, start)
  {
  }

  /** ScanString at an interpolation: the interpolation, then a fresh chunk. */
  lemma ScanStringInterpolation(input: Bytes, pos: nat, start: nat)
    requires start <= pos && pos + 2 < |input| && StartsWith(input, pos, InterpolationOpen)
    ensures var h := ScanInterpolation(input, pos, start);
            ScanString(input, pos, start) ==
              if h.fatal then h
              else Emitting(h.tokens, ScanString(input, h.next, h.next))
  {
    assert input[pos] == InterpolationOpen[0];
  }

  /** ScanString at the closing quote flushes the chunk. */
  lemma ScanStringQuote(input: Bytes, pos: nat, start: nat)
    requires start <= pos < |input| && input[pos] == '"'
    ensures ScanString(input, pos, start) == Scan([Token(TokenString, input[start..pos])], pos + 1, false)
  {
  }

  function Single(kind: TokenType, text: Bytes, pos: nat): Scan
  {
    Scan([Token(kind, text)], pos + 1, false)
  }

  /** One iteration of the scanner's main loop at `pos`: the emoji prefixes
      are tried first, then the byte at `pos` is classified. */
  function Step(input: Bytes, pos: nat): (r: Scan)
    requires pos < |input|
    ensures pos <= r.next <= |input|
    ensures !r.fatal ==> pos < r.next
  {
    EmojisNonEmpty();
    match EmojiAt(input, pos, Emojis)
    case Some(Keyword(text, kind)) => Scan([Token(kind, text)], pos + |text|, false)
    case Some(Skipped(text)) => Scan([], pos + |text|, false)
    case None => ByteStep(input, pos)
  }

  /** The classification of the byte at `pos`, when no emoji starts there. */
  function ByteStep(input: Bytes, pos: nat): (r: Scan)
    requires pos < |input|
    ensures pos <= r.next <= |input|
    ensures !r.fatal ==> pos < r.next
  {
    var b := input[pos];
    if b == '{' then Single(TokenLBrace, "{", pos)
    else if b == '}' then Single(TokenRBrace, "}", pos)
    else if b == '(' then Single(TokenLParen, "(", pos)
    else if b == ')' then Single(TokenRParen, ")", pos)
    else if b == ',' then Single(TokenComma, ",", pos)
    else if b == '=' then Single(TokenEqualSign, "=", pos)
    else if b == '+' then Single(TokenPlus, "+", pos)
    else if b == '*' then Single(TokenMult, "*", pos)
    else if b == '"' then ScanString(input, pos + 1, pos + 1)
    else if IsLetter(b) then
      var end := WordEnd(input, pos);
      Scan([Token(WordKind(input[pos..end]), input[pos..end])], end, false)
    else if IsDigit(b) then
      var end := NumberEnd(input, pos);
      Scan([Token(TokenNumber, input[pos..end])], end, false)
    else if IsSpace(b) then Scan([], pos + 1, false)
    else if b == '.' then Single(TokenConcat, ".", pos)
    else if b == ':' then Single(TokenTypeColon, ":", pos)
    else Scan([], pos + 1, false)
  }

  /** The tokens the scanner emits from `pos` on. */
  function LexFrom(input: Bytes, pos: nat): Lexed
    decreases |input| - pos
  {
    if pos >= |input| then Lexed([EofToken], true)
    else
      var s := Step(input, pos);
      if s.fatal then Lexed(s.tokens, false)
      else Prepend(s.tokens, LexFrom(input, s.next))
  }

  /** The tokens of a scan followed by whatever the scanner emits after it. */
  function After(input: Bytes, s: Scan): Lexed
    requires s.next <= |input|
  {
    if s.fatal then Lexed(s.tokens, false) else Prepend(s.tokens, LexFrom(input, s.next))
  }

  /** The whole token list of a source text. */
  function Tokenize(input: Bytes): Lexed
  {
    LexFrom(input, 0)
  }

  lemma LexFromStep(input: Bytes, pos: nat)
    requires pos < |input|
    ensures LexFrom(input, pos) == After(input, Step(input, pos))
  {
  }

  lemma PrependTwice(a: seq<Token>, b: seq<Token>, l: Lexed)
    ensures Prepend(a, Prepend(b, l)) == Prepend(a + b, l)
  {
    assert a + (b + l.tokens) == (a + b) + l.tokens;
  }

  class Lexer {
    const input: Bytes
    var pos: nat
    var tokens: seq<Token>

    constructor (input: Bytes)
      ensures this.input == input && pos == 0 && tokens == []
    {
      this.input := input;
      pos := 0;
      tokens := [];
    }

    /** Scans from `pos` to the end of the input (or to a fatal error),
        appending to `tokens`, and returns the whole token list. */
    method Lex() returns (r: seq<Token>)
      modifies this
      ensures r == tokens == old(tokens) + LexFrom(input, old(pos)).tokens
    {
      ghost var goal := Prepend(tokens, LexFrom(input, pos));
      while pos < |input|
        invariant Prepend(tokens, LexFrom(input, pos)) == goal
        decreases |input| - pos
      {
        ghost var s, t0 := Step(input, pos), tokens;
        LexFromStep(input, pos);
        var stop := LexStep();
        if stop {
          r := tokens;
          return;
        }
        PrependTwice(t0, s.tokens, LexFrom(input, pos));
      }
      tokens := tokens + [EofToken];
      r := tokens;
    }

    /** One iteration of the main loop: an emoji prefix, else the byte switch. */
    method LexStep() returns (stop: bool)
      requires pos < |input|
      modifies this
      ensures var s := Step(input, old(pos));
              tokens == old(tokens) + s.tokens && stop == s.fatal && (!stop ==> pos == s.next)
    {
      ghost var s := Step(input, pos);
      stop := false;
      var emoji := EmojiAt(input, pos, Emojis);
      if emoji.Some? {
        EmojisNonEmpty();
        match emoji.value
        case Keyword(text, kind) =>
          assert s == Scan([Token(kind, text)], pos + |text|, false);
          tokens := tokens + [Token(kind, text)];
          pos := pos + |text|;
        case Skipped(text) =>
          assert s == Scan([], pos + |text|, false);
          pos := pos + |text|;
      } else {
        assert s == ByteStep(input, pos);
        stop := LexByte();
      }
    }

    /** The byte switch of the main loop, for a position where no emoji starts. */
    method LexByte() returns (stop: bool)
      requires pos < |input|
      modifies this
      ensures var s := ByteStep(input, old(pos));
              tokens == old(tokens) + s.tokens && stop == s.fatal && (!stop ==> pos == s.next)
    {
      var b := input[pos];
      stop := false;
      if b == '{' {
        tokens := tokens + [Token(TokenLBrace, "{")];
        pos := pos + 1;
      } else if b == '}' {
        tokens := tokens + [Token(TokenRBrace, "}")];
        pos := pos + 1;
      } else if b == '(' {
        tokens := tokens + [Token(TokenLParen, "(")];
        pos := pos + 1;
      } else if b == ')' {
        tokens := tokens + [Token(TokenRParen, ")")];
        pos := pos + 1;
      } else if b == ',' {
        tokens := tokens + [Token(TokenComma, ",")];
        pos := pos + 1;
      } else if b == '=' {
        tokens := tokens + [Token(TokenEqualSign, "=")];
        pos := pos + 1;
      } else if b == '+' {
        tokens := tokens + [Token(TokenPlus, "+")];
        pos := pos + 1;
      } else if b == '*' {
        tokens := tokens + [Token(TokenMult, "*")];
        pos := pos + 1;
      } else if b == '"' {
        stop := LexString();
      } else if IsLetter(b) {
        LexWord();
      } else if IsDigit(b) {
        LexNumber();
      } else if IsSpace(b) {
        pos := pos + 1;
      } else if b == '.' {
        tokens := tokens + [Token(TokenConcat, ".")];
        pos := pos + 1;
      } else if b == ':' {
        tokens := tokens + [Token(TokenTypeColon, ":")];
        pos := pos + 1;
      } else {
        pos := pos + 1;
      }
    }

    /** The string case of the scanner, entered on the opening quote. It
        stops lexing (`stop`) when the string or an interpolation in it is
        not terminated. */
    method LexString() returns (stop: bool)
      requires pos < |input| && input[pos] == '"'
      modifies this
      ensures var s := ScanString(input, old(pos) + 1, old(pos) + 1);
              tokens == old(tokens) + s.tokens && stop == s.fatal && (!stop ==> pos == s.next)
    {
      ghost var t0 := tokens;
      ghost var goal := ScanString(input, pos + 1, pos + 1);
      pos := pos + 1;
      var start: nat := pos;
      while pos < |input| && input[pos] != '"'
        invariant start <= pos <= |input|
        invariant Emitting(tokens, ScanString(input, pos, start)) == Emitting(t0, goal)
        decreases |input| - pos
      {
        if pos + 2 < |input| && StartsWith(input, pos, InterpolationOpen) {
          ghost var t1, h := tokens, ScanInterpolation(input, pos, start);
          ScanStringInterpolation(input, pos, start);
          var unclosed := LexInterpolation(start);
          if unclosed {
            return true;
          }
          start := pos;
          EmittingTwice(t1, h.tokens, ScanString(input, pos, start));
          continue;
        }
        ScanStringPlain(input, pos, start);
        pos := pos + 1;
      }
      var content: Bytes := "";
      if pos > start {
        content := content + input[start..pos];
      }
      if pos >= |input| {
        return true;
      }
      assert content == input[start..pos];
      ScanStringQuote(input, pos, start);
      tokens := tokens + [Token(TokenString, content)];
      pos := pos + 1;
      return false;
    }

    /** An interpolation `💱{name}` inside a string literal: flushes the
        pending chunk, emits the marker tokens, then the name up to the
        closing brace, which it skips. `unclosed` when no brace follows. */
    method LexInterpolation(start: nat) returns (unclosed: bool)
      requires start <= pos && pos + 2 < |input| && StartsWith(input, pos, InterpolationOpen)
      modifies this
      ensures var h := ScanInterpolation(input, old(pos), start);
              tokens == old(tokens) + h.tokens && unclosed == h.fatal && (!unclosed ==> pos == h.next)
    {
      ghost var close := FindByte(input, pos + |InterpolationOpen|, '}');
      var content: Bytes := "";
      if pos > start {
        content := content + input[start..pos];
      }
      assert content == input[start..pos];
      tokens := tokens + [Token(TokenString, content)];
      content := "";
      pos := pos + |InterpolationOpen|;
      tokens := tokens + [Token(TokenInterpolate, InterpolateEmoji)];
      tokens := tokens + [Token(TokenLBrace, "{")];
      var identStart := pos;
      while pos < |input| && input[pos] != '}'
        invariant identStart <= pos <= |input|
        invariant FindByte(input, pos, '}') == close
        invariant tokens == old(tokens) + [Token(TokenString, input[start..old(pos)]), Token(TokenInterpolate, InterpolateEmoji), Token(TokenLBrace, "{")]
        decreases |input| - pos
      {
        pos := pos + 1;
      }
      if pos >= |input| {
        return true;
      }
      tokens := tokens + [Token(TokenIdentifier, input[identStart..pos])];
      tokens := tokens + [Token(TokenRBrace, "}")];
      pos := pos + 1;
      return false;
    }

    /** The identifier case: a maximal run of letters and digits. */
    method LexWord()
      requires pos < |input| && IsLetter(input[pos])
      modifies this
      ensures pos == WordEnd(input, old(pos))
      ensures tokens == old(tokens) + [Token(WordKind(input[old(pos)..pos]), input[old(pos)..pos])]
    {
      var start := pos;
      while pos < |input| && (IsLetter(input[pos]) || IsDigit(input[pos]))
        invariant start <= pos <= |input|
        invariant WordEnd(input, pos) == WordEnd(input, start)
        invariant tokens == old(tokens)
        decreases |input| - pos
      {
        pos := pos + 1;
      }
      var value := input[start..pos];
      if value == "true" || value == "false" {
        tokens := tokens + [Token(TokenBoolean, value)];
      } else if value == "main" {
        tokens := tokens + [Token(TokenMain, value)];
      } else {
        tokens := tokens + [Token(TokenIdentifier, value)];
      }
    }

    /** The number case: a maximal run of digits. */
    method LexNumber()
      requires pos < |input| && IsDigit(input[pos])
      modifies this
      ensures pos == NumberEnd(input, old(pos))
      ensures tokens == old(tokens) + [Token(TokenNumber, input[old(pos)..pos])]
    {
      var start := pos;
      while pos < |input| && IsDigit(input[pos])
        invariant start <= pos <= |input|
        invariant NumberEnd(input, pos) == NumberEnd(input, start)
        invariant tokens == old(tokens)
        decreases |input| - pos
      {
        pos := pos + 1;
      }
      tokens := tokens + [Token(TokenNumber, input[start..pos])];
    }
  }
}
