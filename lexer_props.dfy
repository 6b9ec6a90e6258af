/** What the tokenizer of internal/lexer/lexer.go guarantees about the token
    list it returns, proved about LexFrom (which the Lexer class is proved to
    compute). */
module LexerProps {
  import opened Text
  import opened Lexer

  /** No token of `ts` is EOF. */
  predicate NoEof(ts: seq<Token>)
  {
    forall i :: 0 <= i < |ts| ==> ts[i].kind != TokenEOF
  }

  /** No STRING token of `ts` holds the marker that opens an interpolation. */
  predicate PlainStrings(ts: seq<Token>)
  {
    forall i :: 0 <= i < |ts| && ts[i].kind == TokenString ==> !Contains(ts[i].value, InterpolationOpen)
  }

  /** The string scanner stops for an interpolation at `i`. */
  predicate MarkerAt(input: Bytes, i: nat)
  {
    i + 2 < |input| && StartsWith(input, i, InterpolationOpen)
  }

  /** No interpolation starts in [from, to). */
  predicate NoMarkerIn(input: Bytes, from: nat, to: nat)
  {
    forall i :: from <= i < to ==> !MarkerAt(input, i)
  }

  lemma NoEofAppend(a: seq<Token>, b: seq<Token>)
    requires NoEof(a) && NoEof(b)
    ensures NoEof(a + b)
  {
    assert forall i :: |a| <= i < |a + b| ==> (a + b)[i] == b[i - |a|];
  }

  lemma PlainAppend(a: seq<Token>, b: seq<Token>)
    requires PlainStrings(a) && PlainStrings(b)
    ensures PlainStrings(a + b)
  {
    assert forall i :: |a| <= i < |a + b| ==> (a + b)[i] == b[i - |a|];
  }

  /** A chunk of string content the scanner passed over holds no marker. */
  lemma ChunkPlain(input: Bytes, start: nat, pos: nat)
    requires start <= pos <= |input| && NoMarkerIn(input, start, pos)
    ensures !Contains(input[start..pos], InterpolationOpen)
  {
    var c := input[start..pos];
    forall i: nat | i <= |c| && StartsWith(c, i, InterpolationOpen)
      ensures MarkerAt(input, start + i) && start + i < pos
    {
      forall k | 0 <= k < |InterpolationOpen|
        ensures input[start + i + k] == InterpolationOpen[k]
      {
        assert c[i..i + |InterpolationOpen|][k] == c[i + k];
      }
      assert input[start + i..start + i + |InterpolationOpen|] == InterpolationOpen;
    }
  }

  /** The tokens of one `💱{name}`: no EOF, and the STRING among them is the
      chunk before the marker. */
  lemma InterpolationTokens(input: Bytes, pos: nat, start: nat)
    requires start <= pos && StartsWith(input, pos, InterpolationOpen) && NoMarkerIn(input, start, pos)
    ensures NoEof(ScanInterpolation(input, pos, start).tokens)
    ensures PlainStrings(ScanInterpolation(input, pos, start).tokens)
  {
    ChunkPlain(input, start, pos);
  }

  /** One `💱{name}` inside a string emits STRING(the text before it),
      INTERPOLATE and LBRACE; when a `}` follows, also IDENTIFIER(the bytes up
      to the first `}`) and RBRACE, and scanning resumes after that `}`. */
  lemma InterpolationShape(input: Bytes, pos: nat, start: nat)
    requires start <= pos && StartsWith(input, pos, InterpolationOpen)
    ensures var r := ScanInterpolation(input, pos, start);
            var open := pos + |InterpolationOpen|;
            && |r.tokens| == (if r.fatal then 3 else 5)
            && r.tokens[0] == Token(TokenString, input[start..pos])
            && r.tokens[1] == Token(TokenInterpolate, InterpolateEmoji)
            && r.tokens[2] == Token(TokenLBrace, "{")
            && (!r.fatal ==>
                  && open < r.next
                  && r.tokens[3] == Token(TokenIdentifier, input[open..r.next - 1])
                  && r.tokens[4] == Token(TokenRBrace, "}")
                  && forall k :: open <= k < r.next - 1 ==> input[k] != '}')
  {
  }

  /** The tokens of a string literal: no EOF and no STRING with a marker. */
  lemma {:induction false} ScanStringTokens(input: Bytes, pos: nat, start: nat)
    requires start <= pos <= |input| && NoMarkerIn(input, start, pos)
    ensures NoEof(ScanString(input, pos, start).tokens)
    ensures PlainStrings(ScanString(input, pos, start).tokens)
    decreases |input| - pos
  {
    if pos >= |input| {
    } else if input[pos] == '"' {
      ChunkPlain(input, start, pos);
    } else if MarkerAt(input, pos) {
      var h := ScanInterpolation(input, pos, start);
      InterpolationTokens(input, pos, start);
      if !h.fatal {
        ScanStringTokens(input, h.next, h.next);
        NoEofAppend(h.tokens, ScanString(input, h.next, h.next).tokens);
        PlainAppend(h.tokens, ScanString(input, h.next, h.next).tokens);
      }
    } else {
      ScanStringTokens(input, pos + 1, start);
    }
  }

  /** The kinds the emoji table produces. */
  lemma EmojiKinds()
    ensures forall i :: 0 <= i < |Emojis| && Emojis[i].Keyword? ==> Emojis[i].kind != TokenEOF && Emojis[i].kind != TokenString
  {
  }

  /** The tokens of one scanner iteration: no EOF and no STRING with a marker. */
  lemma StepTokens(input: Bytes, pos: nat)
    requires pos < |input|
    ensures NoEof(Step(input, pos).tokens) && PlainStrings(Step(input, pos).tokens)
  {
    if EmojiAt(input, pos, Emojis).Some? {
      EmojiStepTokens(input, pos);
    } else {
      assert Step(input, pos) == ByteStep(input, pos);
      ByteStepTokens(input, pos);
    }
  }

  /** StepTokens where an emoji lexeme matched. */
  lemma EmojiStepTokens(input: Bytes, pos: nat)
    requires pos < |input| && EmojiAt(input, pos, Emojis).Some?
    ensures NoEof(Step(input, pos).tokens) && PlainStrings(Step(input, pos).tokens)
  {
    EmojiStepShape(input, pos);
    TableTokens(EmojiAt(input, pos, Emojis).value);
  }

  /** The tokens an emoji lexeme yields outside a string. */
  function EmojiTokens(e: Emoji): seq<Token>
  {
    if e.Keyword? then [Token(e.kind, e.text)] else []
  }

  lemma TableTokens(e: Emoji)
    requires e in Emojis
    ensures NoEof(EmojiTokens(e)) && PlainStrings(EmojiTokens(e))
  {
    var i :| 0 <= i < |Emojis| && Emojis[i] == e;
    EmojiKinds();
    if e.Keyword? {
      assert e.kind != TokenEOF && e.kind != TokenString;
    }
  }

  /** The scan of a matched emoji lexeme: one token for a keyword, none for
      the interpolation emoji. */
  lemma EmojiStepShape(input: Bytes, pos: nat)
    requires pos < |input| && EmojiAt(input, pos, Emojis).Some?
    ensures var e := EmojiAt(input, pos, Emojis).value;
            Step(input, pos).tokens == EmojiTokens(e)
  {
  }

  lemma ByteStepTokens(input: Bytes, pos: nat)
    requires pos < |input|
    ensures NoEof(ByteStep(input, pos).tokens) && PlainStrings(ByteStep(input, pos).tokens)
  {
    if input[pos] == '"' {
      ScanStringTokens(input, pos + 1, pos + 1);
    }
  }

  /** The shape of a scanner result: when complete, exactly one EOF token,
      at the end; when stopped early, no EOF at all; and no STRING token
      holding the interpolation marker. */
  predicate WellLexed(l: Lexed)
  {
    && (l.complete ==> |l.tokens| > 0 && l.tokens[|l.tokens| - 1] == EofToken && NoEof(l.tokens[..|l.tokens| - 1]))
    && (!l.complete ==> NoEof(l.tokens))
    && PlainStrings(l.tokens)
  }

  lemma {:induction false} LexFromTokens(input: Bytes, pos: nat)
    ensures WellLexed(LexFrom(input, pos))
    decreases |input| - pos, 0
  {
    if pos < |input| {
      var s := Step(input, pos);
      LexFromStep(input, pos);
      StepTokens(input, pos);
      if s.fatal {
        assert LexFrom(input, pos) == Lexed(s.tokens, false);
      } else {
        AfterTokens(input, s);
      }
    } else {
      assert LexFrom(input, pos).tokens[..0] == [];
    }
  }

  /** Tokens without EOF or marker put in front keep a result well formed. */
  lemma PrependWellLexed(a: seq<Token>, l: Lexed)
    requires NoEof(a) && PlainStrings(a) && WellLexed(l)
    ensures WellLexed(Prepend(a, l))
  {
    PlainAppend(a, l.tokens);
    if l.complete {
      NoEofAppend(a, l.tokens[..|l.tokens| - 1]);
      assert (a + l.tokens)[..|a + l.tokens| - 1] == a + l.tokens[..|l.tokens| - 1];
    } else {
      NoEofAppend(a, l.tokens);
    }
  }

  /** LexFromTokens for the tokens of one scan followed by the rest. */
  lemma {:induction false} AfterTokens(input: Bytes, s: Scan)
    requires s.next <= |input| && NoEof(s.tokens) && PlainStrings(s.tokens)
    ensures WellLexed(After(input, s))
    decreases |input| - s.next, 1
  {
    if !s.fatal {
      LexFromTokens(input, s.next);
      PrependWellLexed(s.tokens, LexFrom(input, s.next));
    }
  }

  /** Tokenize ends in EOF exactly when the whole input was scanned. */
  lemma TokenizeEof(input: Bytes)
    ensures var l := Tokenize(input);
            l.complete <==> (|l.tokens| > 0 && l.tokens[|l.tokens| - 1].kind == TokenEOF)
  {
    LexFromTokens(input, 0);
  }

  /** A string literal with no closing quote ends lexing. */
  lemma {:induction false} ScanStringUnterminated(input: Bytes, pos: nat, start: nat)
    requires start <= pos <= |input|
    requires forall k :: pos <= k < |input| ==> input[k] != '"'
    ensures ScanString(input, pos, start).fatal
    decreases |input| - pos
  {
    if pos < |input| {
      if MarkerAt(input, pos) {
        var h := ScanInterpolation(input, pos, start);
        if !h.fatal {
          ScanStringUnterminated(input, h.next, h.next);
        }
      } else {
        ScanStringUnterminated(input, pos + 1, start);
      }
    }
  }

  /** Every emoji lexeme starts with a byte outside ASCII. */
  lemma EmojiLeads()
    ensures forall i :: 0 <= i < |Emojis| ==> |Emojis[i].text| >= 3 && Emojis[i].text[0] as int >= 0x80
  {
  }

  /** No emoji matches where the input has an ASCII byte. */
  lemma NoEmojiAtAscii(input: Bytes, pos: nat)
    requires pos < |input| && (input[pos] as int) < 0x80
    ensures EmojiAt(input, pos, Emojis).None?
  {
    EmojiLeads();
    forall e | e in Emojis
      ensures !StartsWith(input, pos, e.text)
    {
      var i :| 0 <= i < |Emojis| && Emojis[i] == e;
      if pos + |e.text| <= |input| {
        assert input[pos..pos + |e.text|][0] == input[pos];
      }
    }
  }

  /** Where an ASCII byte stands, the scanner goes straight to classifying it. */
  lemma StepAscii(input: Bytes, pos: nat)
    requires pos < |input| && (input[pos] as int) < 0x80
    ensures Step(input, pos) == ByteStep(input, pos)
  {
    NoEmojiAtAscii(input, pos);
  }

  /** An unterminated string literal: the tokens before it and no EOF. */
  lemma UnterminatedString(input: Bytes, pos: nat)
    requires pos < |input| && input[pos] == '"'
    requires forall k :: pos < k < |input| ==> input[k] != '"'
    ensures LexFrom(input, pos) == Lexed(ScanString(input, pos + 1, pos + 1).tokens, false)
  {
    StepAscii(input, pos);
    ByteStepQuote(input, pos);
    ScanStringUnterminated(input, pos + 1, pos + 1);
  }

  /** The first three bytes of a lexeme as one number. */
  function Key(t: Bytes): int
    requires |t| >= 3
  {
    (t[0] as int) * 0x1_0000 + (t[1] as int) * 0x100 + t[2] as int
  }

  /** The position in Emojis of the lexeme with key `k`, or -1. */
  function KeyIndex(k: int): int
  {
    if k == 0xF09F96 then 0
    else if k == 0xE29C8D then 1
    else if k == 0xF09F9F then 2
    else if k == 0xF09F91 then 3
    else if k == 0xF09FA4 then 4
    else if k == 0xF09F9A then 5
    else if k == 0xE296B6 then 6
    else if k == 0xE286A9 then 7
    else if k == 0xE29C96 then 8
    else if k == 0xE29E95 then 9
    else if k == 0xF09F92 then 10
    else if k == 0xF09F94 then 11
    else if k == 0xF09F93 then 12
    else if k == 0xE29A96 then 13
    else if k == 0xF09F97 then 14
    else -1
  }

  lemma KeysLow(i: int)
    requires 0 <= i < 5
    ensures |Emojis[i].text| >= 3 && KeyIndex(Key(Emojis[i].text)) == i
  {
  }

  lemma KeysMid(i: int)
    requires 5 <= i < 10
    ensures |Emojis[i].text| >= 3 && KeyIndex(Key(Emojis[i].text)) == i
  {
  }

  lemma KeysHigh(i: int)
    requires 10 <= i < 15
    ensures |Emojis[i].text| >= 3 && KeyIndex(Key(Emojis[i].text)) == i
  {
  }

  /** The first three bytes tell the emoji lexemes apart. */
  lemma KeysIndexed()
    ensures forall i :: 0 <= i < |Emojis| ==> |Emojis[i].text| >= 3 && KeyIndex(Key(Emojis[i].text)) == i
  {
    forall i | 0 <= i < |Emojis|
      ensures |Emojis[i].text| >= 3 && KeyIndex(Key(Emojis[i].text)) == i
    {
      if i < 5 {
        KeysLow(i);
      } else if i < 10 {
        KeysMid(i);
      } else {
        KeysHigh(i);
      }
    }
  }

  /** At most one emoji lexeme starts at any position of the input. */
  lemma EmojiUnique(input: Bytes, pos: nat, d: Emoji, e: Emoji)
    requires d in Emojis && e in Emojis
    requires StartsWith(input, pos, d.text) && StartsWith(input, pos, e.text)
    ensures d == e
  {
    KeysIndexed();
    var i :| 0 <= i < |Emojis| && Emojis[i] == d;
    var j :| 0 <= j < |Emojis| && Emojis[j] == e;
    assert d.text[..3] == input[pos..pos + |d.text|][..3] == input[pos..pos + 3];
    assert e.text[..3] == input[pos..pos + |e.text|][..3] == input[pos..pos + 3];
    assert Key(d.text) == Key(e.text) by {
      assert d.text[..3][0] == e.text[..3][0] && d.text[..3][1] == e.text[..3][1] && d.text[..3][2] == e.text[..3][2];
    }
  }

  /** An emoji lexeme at `pos` is recognised whatever precedes it in the
      table: a keyword yields one token whose value is the emoji and moves
      past it; the interpolation emoji outside a string is skipped. */
  lemma StepEmoji(input: Bytes, pos: nat, i: nat)
    requires pos < |input| && i < |Emojis| && StartsWith(input, pos, Emojis[i].text)
    ensures Emojis[i].Keyword? ==> Step(input, pos) == Scan([Token(Emojis[i].kind, Emojis[i].text)], pos + |Emojis[i].text|, false)
    ensures Emojis[i].Skipped? ==> Step(input, pos) == Scan([], pos + |Emojis[i].text|, false)
  {
    var r := EmojiAt(input, pos, Emojis);
    assert Emojis[i] in Emojis;
    EmojiUnique(input, pos, r.value, Emojis[i]);
  }

  /** The single-character tokens. */
  function Punctuation(b: Byte): Option<TokenType>
  {
    if b == '{' then Some(TokenLBrace)
    else if b == '}' then Some(TokenRBrace)
    else if b == '(' then Some(TokenLParen)
    else if b == ')' then Some(TokenRParen)
    else if b == ',' then Some(TokenComma)
    else if b == '=' then Some(TokenEqualSign)
    else if b == '+' then Some(TokenPlus)
    else if b == '*' then Some(TokenMult)
    else if b == '.' then Some(TokenConcat)
    else if b == ':' then Some(TokenTypeColon)
    else None
  }

  /** Each of `{ } ( ) , = + * . :` yields one token holding that byte. */
  lemma StepPunctuation(input: Bytes, pos: nat)
    requires pos < |input| && Punctuation(input[pos]).Some?
    ensures Step(input, pos) == Scan([Token(Punctuation(input[pos]).value, [input[pos]])], pos + 1, false)
  {
    ByteStepPunctuation(input, pos);
    StepAscii(input, pos);
  }

  lemma ByteStepPunctuation(input: Bytes, pos: nat)
    requires pos < |input| && Punctuation(input[pos]).Some?
    ensures (input[pos] as int) < 0x80
    ensures ByteStep(input, pos) == Scan([Token(Punctuation(input[pos]).value, [input[pos]])], pos + 1, false)
  {
  }

  /** Whitespace is skipped, and so is any byte no rule accepts that does
      not start an emoji (an ASCII byte never does). */
  lemma StepSkip(input: Bytes, pos: nat)
    requires pos < |input| && ((input[pos] as int) < 0x80 || EmojiAt(input, pos, Emojis).None?)
    requires Punctuation(input[pos]).None?
    requires input[pos] != '"' && !IsLetter(input[pos]) && !IsDigit(input[pos])
    ensures Step(input, pos) == Scan([], pos + 1, false)
  {
    ByteStepSkip(input, pos);
    if (input[pos] as int) < 0x80 {
      StepAscii(input, pos);
    }
  }

  /** In the byte switch, whitespace and any byte no case accepts advance
      by one and emit nothing. */
  lemma ByteStepSkip(input: Bytes, pos: nat)
    requires pos < |input| && Punctuation(input[pos]).None?
    requires input[pos] != '"' && !IsLetter(input[pos]) && !IsDigit(input[pos])
    ensures ByteStep(input, pos) == Scan([], pos + 1, false)
  {
  }

  /** The kind a word is given: BOOLEAN for `true`/`false`, MAIN for
      `main`, IDENTIFIER for anything else. */
  lemma WordKinds(w: Bytes)
    ensures WordKind(w) == TokenBoolean <==> w == "true" || w == "false"
    ensures WordKind(w) == TokenMain <==> w == "main"
    ensures WordKind(w) == TokenIdentifier <==> w != "true" && w != "false" && w != "main"
  {
  }

  /** In the byte switch, a letter starts the word made of the maximal run
      of letters and digits from it. */
  lemma ByteStepWord(input: Bytes, pos: nat)
    requires pos < |input| && IsLetter(input[pos])
    ensures var end := WordEnd(input, pos);
            ByteStep(input, pos) == Scan([Token(WordKind(input[pos..end]), input[pos..end])], end, false)
  {
  }

  /** A letter that does not start an emoji (an ASCII letter never does)
      starts a word: the maximal run of letters and digits, as a BOOLEAN
      for `true`/`false`, MAIN for `main`, otherwise an IDENTIFIER. */
  lemma StepWord(input: Bytes, pos: nat)
    requires pos < |input| && IsLetter(input[pos])
    requires (input[pos] as int) < 0x80 || EmojiAt(input, pos, Emojis).None?
    ensures var s := Step(input, pos);
            && s.next == WordEnd(input, pos) && pos < s.next
            && s.tokens == [Token(WordKind(input[pos..s.next]), input[pos..s.next])] && !s.fatal
  {
    if (input[pos] as int) < 0x80 {
      StepAscii(input, pos);
    }
    ByteStepWord(input, pos);
  }

  /** A digit starts a NUMBER token holding the maximal run of digits. */
  lemma StepNumber(input: Bytes, pos: nat)
    requires pos < |input| && IsDigit(input[pos])
    ensures var s := Step(input, pos);
            && s == Scan([Token(TokenNumber, input[pos..s.next])], s.next, false)
            && pos < s.next && AllDigits(input[pos..s.next])
            && (s.next < |input| ==> !IsDigit(input[s.next]))
  {
    ByteStepNumber(input, pos);
    StepAscii(input, pos);
    var end := NumberEnd(input, pos);
    assert AllDigits(input[pos..end]) by {
      forall k | 0 <= k < end - pos
        ensures IsDigit(input[pos..end][k])
      {
        assert input[pos..end][k] == input[pos + k];
      }
    }
  }

  lemma ByteStepNumber(input: Bytes, pos: nat)
    requires pos < |input| && IsDigit(input[pos])
    ensures var end := NumberEnd(input, pos);
            ByteStep(input, pos) == Scan([Token(TokenNumber, input[pos..end])], end, false)
  {
  }

  /** A closed string literal without `💱{` is one STRING token holding the
      bytes between the quotes, and scanning resumes after the closing quote. */
  lemma StepPlainString(input: Bytes, pos: nat, close: nat)
    requires pos < close < |input| && input[pos] == '"' && input[close] == '"'
    requires forall k :: pos < k < close ==> input[k] != '"'
    requires NoMarkerIn(input, pos + 1, close)
    ensures Step(input, pos) == Scan([Token(TokenString, input[pos + 1..close])], close + 1, false)
  {
    calc {
      Step(input, pos);
      { StepAscii(input, pos); }
      ByteStep(input, pos);
      { ByteStepQuote(input, pos); }
      ScanString(input, pos + 1, pos + 1);
      { PlainRun(input, pos + 1, pos + 1, close); }
      Scan([Token(TokenString, input[pos + 1..close])], close + 1, false);
    }
  }

  /** A double quote hands over to the string scanner. */
  lemma ByteStepQuote(input: Bytes, pos: nat)
    requires pos < |input| && input[pos] == '"'
    ensures ByteStep(input, pos) == ScanString(input, pos + 1, pos + 1)
  {
  }

  lemma {:induction false} PlainRun(input: Bytes, start: nat, i: nat, close: nat)
    requires start <= i <= close < |input| && input[close] == '"'
    requires forall k :: i <= k < close ==> input[k] != '"'
    requires NoMarkerIn(input, i, close)
    ensures ScanString(input, i, start) == Scan([Token(TokenString, input[start..close])], close + 1, false)
    decreases close - i
  {
    if i < close {
      assert input[i] != '"' && !MarkerAt(input, i);
      assert ScanString(input, i, start) == ScanString(input, i + 1, start);
      PlainRun(input, start, i + 1, close);
    }
  }
}
