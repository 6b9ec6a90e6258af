/** What the parser of internal/parser/parser.go guarantees about the trees
    it builds, proved about the Grammar functions (which the Parser class is
    proved to compute). */
module GrammarProps {
  import opened Text
  import opened Lexer
  import opened Ast
  import opened Grammar
  import LexerProps
  import Placeholders
  import Parser

  /** An identifier statement is a comparison when EQUAL follows, a call
      when `(` follows, and a variable reference otherwise. */
  lemma IdentifierDispatch(toks: seq<Token>, pos: nat)
    requires pos < |toks| && toks[pos].kind == TokenIdentifier
    ensures var r := ParseStatement(toks, pos);
            && (NextIs(toks, pos, TokenEqual) ==> r == AsStatement(ParseEqual(toks, pos)))
            && (!NextIs(toks, pos, TokenEqual) && NextIs(toks, pos, TokenLParen) ==> r == AsStatement(ParseFunctionCall(toks, pos)))
            && (!NextIs(toks, pos, TokenEqual) && !NextIs(toks, pos, TokenLParen) ==> r == Ok(Some(VariableNode(toks[pos].value)), pos + 1))
  {
  }

  /** Inside braces, a token that neither closes the body nor starts a
      statement makes the statement loop spin forever. */
  lemma BodyDiverges(toks: seq<Token>, pos: nat)
    requires pos <= |toks| && !ClosesBody(Kind(toks, pos)) && !StartsStatement(Kind(toks, pos))
    ensures ParseBody(toks, pos) == Diverge
  {
  }

  /** A body that parses consists of statements only: the statement loop
      stops at the first RBRACE or EOF, and every token before it belongs to
      a statement. */
  lemma {:induction false} BodyStops(toks: seq<Token>, pos: nat)
    requires pos <= |toks|
    decreases |toks| - pos
    ensures var r := ParseBody(toks, pos);
            r.Ok? ==> (r.value == [] <==> r.next == pos) && (r.value == [] <==> ClosesBody(Kind(toks, pos)))
  {
    if !ClosesBody(Kind(toks, pos)) {
      var s := ParseStatement(toks, pos);
      if s.Ok? && s.value.Some? {
        BodyStops(toks, s.next);
      }
    }
  }

  /** At top level, a token no statement starts with is skipped. */
  lemma TopSkips(toks: seq<Token>, pos: nat)
    requires pos < |toks| && Kind(toks, pos) != TokenEOF && !StartsStatement(Kind(toks, pos))
    ensures ParseTop(toks, pos) == ParseTop(toks, pos + 1)
  {
  }

  /** parseAssign reads no type annotation: a colon after the name is a
      panic expecting `=`. */
  lemma AssignRejectsAnnotation(toks: seq<Token>, pos: nat)
    requires pos + 2 < |toks| && toks[pos].kind == TokenAssign && toks[pos + 1].kind == TokenIdentifier
    requires toks[pos + 2].kind == TokenTypeColon
    ensures ParseAssign(toks, pos) == Abort(Expected(TokenEqualSign, toks[pos + 2]))
  {
  }

  /** A number in an expression becomes an AssignNode with an empty name,
      holding Atoi's value of the digits (its error is ignored). */
  lemma NumberTerm(toks: seq<Token>, pos: nat)
    requires pos < |toks| && toks[pos].kind == TokenNumber
    ensures ParseTerm(toks, pos) == Ok(AssignNode([], Constant(LitInt(Atoi(toks[pos].value).value))), pos + 1)
  {
  }

  /** An IDENTIFIER followed by `(` in an expression is a function call. */
  lemma CallTerm(toks: seq<Token>, pos: nat)
    requires pos < |toks| && toks[pos].kind == TokenIdentifier && NextIs(toks, pos, TokenLParen)
    ensures ParseTerm(toks, pos) == ParseFunctionCall(toks, pos)
  {
  }

  /** parseAssign succeeds exactly on ASSIGN, an IDENTIFIER, `=` and a
      value; the node stores that identifier's name and that value. */
  lemma AssignShape(toks: seq<Token>, pos: nat)
    requires pos <= |toks|
    ensures var r := ParseAssign(toks, pos);
            && (r.Ok? <==> && Kind(toks, pos) == TokenAssign && Kind(toks, pos + 1) == TokenIdentifier
                           && Kind(toks, pos + 2) == TokenEqualSign && ParseAssignValue(toks, pos + 3).Ok?)
            && (r.Ok? ==> var v := ParseAssignValue(toks, pos + 3);
                          r == Ok(AssignNode(toks[pos + 1].value, v.value), v.next))
  {
    if Kind(toks, pos) == TokenAssign && Kind(toks, pos + 1) == TokenIdentifier {
      assert Consume(toks, pos, TokenAssign) == Ok(toks[pos], pos + 1);
      assert Consume(toks, pos + 1, TokenIdentifier) == Ok(toks[pos + 1], pos + 2);
    }
  }

  /** When an IDENTIFIER and `(` follow `=`, parseAssign stores the call
      that parseFunctionCall reads there. */
  lemma AssignValueCall(toks: seq<Token>, pos: nat)
    requires pos <= |toks| && Kind(toks, pos) == TokenIdentifier && NextIs(toks, pos, TokenLParen)
    ensures var r := ParseAssignValue(toks, pos);
            var call := ParseFunctionCall(toks, pos);
            && (r.Ok? <==> call.Ok?)
            && (r.Ok? ==> r == Ok(FromNode(call.value), call.next))
  {
  }

  /** A block is LBRACE, the statements of a body, and the RBRACE that
      ends that body. */
  lemma BlockShape(toks: seq<Token>, pos: nat)
    requires pos <= |toks|
    ensures var r := ParseBlock(toks, pos);
            && (r.Ok? <==> && Kind(toks, pos) == TokenLBrace && ParseBody(toks, pos + 1).Ok?
                           && Kind(toks, ParseBody(toks, pos + 1).next) == TokenRBrace)
            && (r.Ok? ==> r == Ok(ParseBody(toks, pos + 1).value, ParseBody(toks, pos + 1).next + 1))
  {
  }

  /** parseMain: MAIN, two ASSIGN tokens and a block, whose statements are
      the MainNode's body. */
  lemma MainShape(toks: seq<Token>, pos: nat)
    requires pos <= |toks|
    ensures var r := ParseMain(toks, pos);
            && (r.Ok? <==> && Kind(toks, pos) == TokenMain && Kind(toks, pos + 1) == TokenAssign
                           && Kind(toks, pos + 2) == TokenAssign && ParseBlock(toks, pos + 3).Ok?)
            && (r.Ok? ==> r == Ok(MainNode(ParseBlock(toks, pos + 3).value), ParseBlock(toks, pos + 3).next))
  {
  }

  /** CATCH and a block, whose statements are the catch body. */
  lemma CatchShape(toks: seq<Token>, pos: nat)
    requires pos <= |toks|
    ensures var r := ParseCatch(toks, pos);
            && (r.Ok? <==> Kind(toks, pos) == TokenCatch && ParseBlock(toks, pos + 1).Ok?)
            && (r.Ok? ==> r == ParseBlock(toks, pos + 1))
  {
  }

  /** The blocks of a try statement: the first block is the try body, and
      the block after CATCH the catch body. */
  lemma TryBlocksShape(toks: seq<Token>, pos: nat)
    requires pos <= |toks|
    ensures var r := ParseTryBlocks(toks, pos);
            var t := ParseBlock(toks, pos);
            && (r.Ok? <==> t.Ok? && ParseCatch(toks, t.next).Ok?)
            && (r.Ok? ==> var c := ParseCatch(toks, t.next);
                          r == Ok(TryCatchNode(t.value, c.value), c.next))
  {
  }

  /** parseTryCatch: a head that panics is the statement's panic;
      otherwise the two blocks start right after the five head tokens. */
  lemma TryCatchShape(toks: seq<Token>, pos: nat)
    requires pos <= |toks|
    ensures var head := ParseTryHead(toks, pos);
            && (!head.Ok? ==> ParseTryCatch(toks, pos) == Abort(head.error))
            && (head.Ok? ==> ParseTryCatch(toks, pos) == ParseTryBlocks(toks, pos + 5))
  {
  }

  /** parseFunction: FUNCTION, the name, the parenthesised parameters and
      a block; the definition holds that name, those parameters and the
      block's statements. */
  lemma FunctionShape(toks: seq<Token>, pos: nat)
    requires pos <= |toks|
    ensures var r := ParseFunction(toks, pos);
            && (r.Ok? <==> && Kind(toks, pos) == TokenFunction && Kind(toks, pos + 1) == TokenIdentifier
                           && ParseParamList(toks, pos + 2).Ok?
                           && ParseBlock(toks, ParseParamList(toks, pos + 2).next).Ok?)
            && (r.Ok? ==> var params := ParseParamList(toks, pos + 2);
                          var body := ParseBlock(toks, params.next);
                          r == Ok(FunctionNode(FunctionDef(toks[pos + 1].value, params.value, body.value)), body.next))
  {
    if Kind(toks, pos) == TokenFunction && Kind(toks, pos + 1) == TokenIdentifier {
      FunctionAfterName(toks, pos);
    }
  }

  /** Past FUNCTION and the name, parseFunction is the parameter list and
      then the block. */
  lemma FunctionAfterName(toks: seq<Token>, pos: nat)
    requires pos + 1 < |toks| && toks[pos].kind == TokenFunction && toks[pos + 1].kind == TokenIdentifier
    ensures var params := ParseParamList(toks, pos + 2);
            && (!params.Ok? ==> !ParseFunction(toks, pos).Ok?)
            && (params.Ok? ==> var body := ParseBlock(toks, params.next);
                                 && (!body.Ok? ==> !ParseFunction(toks, pos).Ok?)
                                 && (body.Ok? ==>
                                       ParseFunction(toks, pos)
                                       == Ok(FunctionNode(FunctionDef(toks[pos + 1].value, params.value, body.value)), body.next)))
  {
    assert Consume(toks, pos, TokenFunction) == Ok(toks[pos], pos + 1);
    assert Consume(toks, pos + 1, TokenIdentifier) == Ok(toks[pos + 1], pos + 2);
  }

  /** parseReturn: RETURN and the expression after it. */
  lemma ReturnShape(toks: seq<Token>, pos: nat)
    requires pos <= |toks|
    ensures var r := ParseReturn(toks, pos);
            && (r.Ok? <==> Kind(toks, pos) == TokenReturn && ParseExpression(toks, pos + 1).Ok?)
            && (r.Ok? ==> r == Ok(ReturnNode(ParseExpression(toks, pos + 1).value), ParseExpression(toks, pos + 1).next))
  {
  }

  /** After a comma comes an expression and then the remaining
      repetitions; anything else ends the list. */
  lemma MoreArgsShape(toks: seq<Token>, pos: nat)
    requires pos <= |toks|
    ensures var r := ParseMoreArgs(toks, pos);
            && (Kind(toks, pos) != TokenComma ==> r == Ok([], pos))
            && (Kind(toks, pos) == TokenComma ==>
                  var e := ParseExpression(toks, pos + 1);
                  && (r.Ok? <==> e.Ok? && ParseMoreArgs(toks, e.next).Ok?)
                  && (r.Ok? ==> r == Ok([e.value] + ParseMoreArgs(toks, e.next).value, ParseMoreArgs(toks, e.next).next)))
  {
  }

  /** The arguments are empty before RPAREN; otherwise the first is the
      expression at the cursor and the rest follow it after commas. */
  lemma ArgsShape(toks: seq<Token>, pos: nat)
    requires pos <= |toks|
    ensures var r := ParseArgs(toks, pos);
            && (Kind(toks, pos) == TokenRParen ==> r == Ok([], pos))
            && (Kind(toks, pos) != TokenRParen ==>
                  var e := ParseExpression(toks, pos);
                  && (r.Ok? <==> e.Ok? && ParseMoreArgs(toks, e.next).Ok?)
                  && (r.Ok? ==> r == Ok([e.value] + ParseMoreArgs(toks, e.next).value, ParseMoreArgs(toks, e.next).next)))
  {
  }

  /** Every argument after a comma is a left-leaning operator chain. */
  lemma {:induction false} MoreArgsLeftChain(toks: seq<Token>, pos: nat)
    requires pos <= |toks|
    decreases |toks| - pos
    ensures var r := ParseMoreArgs(toks, pos);
            r.Ok? ==> forall i :: 0 <= i < |r.value| ==> LeftChain(r.value[i])
  {
    var r := ParseMoreArgs(toks, pos);
    if r.Ok? && Kind(toks, pos) == TokenComma {
      var e := ParseExpression(toks, pos + 1);
      MoreArgsLeftChain(toks, e.next);
      assert r.value == [e.value] + ParseMoreArgs(toks, e.next).value;
    }
  }

  /** Every argument of a call is a left-leaning operator chain. */
  lemma ArgsLeftChain(toks: seq<Token>, pos: nat)
    requires pos <= |toks|
    ensures var r := ParseArgs(toks, pos);
            r.Ok? ==> forall i :: 0 <= i < |r.value| ==> LeftChain(r.value[i])
  {
    var r := ParseArgs(toks, pos);
    if r.Ok? && Kind(toks, pos) != TokenRParen {
      var e := ParseExpression(toks, pos);
      MoreArgsLeftChain(toks, e.next);
      assert r.value == [e.value] + ParseMoreArgs(toks, e.next).value;
    }
  }

  /** parseFunctionCall: the name, `(`, the arguments and `)`; the call is
      named by the first token and holds those arguments. */
  lemma CallShape(toks: seq<Token>, pos: nat)
    requires pos <= |toks|
    ensures var r := ParseFunctionCall(toks, pos);
            && (r.Ok? <==> && Kind(toks, pos) == TokenIdentifier && Kind(toks, pos + 1) == TokenLParen
                           && ParseArgs(toks, pos + 2).Ok? && Kind(toks, ParseArgs(toks, pos + 2).next) == TokenRParen)
            && (r.Ok? ==> var args := ParseArgs(toks, pos + 2);
                          r == Ok(FunctionCallNode(toks[pos].value, args.value), args.next + 1))
  {
    if Kind(toks, pos) == TokenIdentifier && Kind(toks, pos + 1) == TokenLParen {
      assert Consume(toks, pos, TokenIdentifier) == Ok(toks[pos], pos + 1);
      assert Consume(toks, pos + 1, TokenLParen) == Ok(toks[pos + 1], pos + 2);
    }
  }

  /** The `, name` repetitions of a parameter list take two tokens per
      name: a comma, then the IDENTIFIER whose value is the name. */
  lemma {:induction false} MoreParamNames(toks: seq<Token>, pos: nat)
    requires pos <= |toks|
    decreases |toks| - pos
    ensures var r := ParseMoreParams(toks, pos);
            r.Ok? ==> forall i :: 0 <= i < |r.value| ==>
              && pos + 2 * i + 1 < |toks|
              && toks[pos + 2 * i].kind == TokenComma && toks[pos + 2 * i + 1] == Token(TokenIdentifier, r.value[i])
  {
    var r := ParseMoreParams(toks, pos);
    if r.Ok? && Kind(toks, pos) == TokenComma {
      var rest := ParseMoreParams(toks, pos + 2);
      assert rest.Ok? && r.value == [toks[pos + 1].value] + rest.value by {
        assert Consume(toks, pos + 1, TokenIdentifier) == Ok(toks[pos + 1], pos + 2);
      }
      MoreParamNames(toks, pos + 2);
      CommaNamesThenMore(toks, pos, rest.value);
    }
  }

  /** A comma and an IDENTIFIER followed by more such pairs lay the names
      out on every other token. */
  lemma CommaNamesThenMore(toks: seq<Token>, pos: nat, rest: seq<Bytes>)
    requires pos + 1 < |toks| && toks[pos].kind == TokenComma && toks[pos + 1].kind == TokenIdentifier
    requires forall i :: 0 <= i < |rest| ==>
               && pos + 2 + 2 * i + 1 < |toks|
               && toks[pos + 2 + 2 * i].kind == TokenComma && toks[pos + 2 + 2 * i + 1] == Token(TokenIdentifier, rest[i])
    ensures var names := [toks[pos + 1].value] + rest;
            forall i :: 0 <= i < |names| ==>
              && pos + 2 * i + 1 < |toks|
              && toks[pos + 2 * i].kind == TokenComma && toks[pos + 2 * i + 1] == Token(TokenIdentifier, names[i])
  {
    var names := [toks[pos + 1].value] + rest;
    forall i | 1 <= i < |names|
      ensures pos + 2 * i + 1 < |toks|
      ensures toks[pos + 2 * i].kind == TokenComma && toks[pos + 2 * i + 1] == Token(TokenIdentifier, names[i])
    {
      assert names[i] == rest[i - 1];
      assert pos + 2 + 2 * (i - 1) == pos + 2 * i;
    }
  }

  /** The parameters of a function are the IDENTIFIER tokens at every other
      position from the first, with a comma between each two. */
  lemma ParamNames(toks: seq<Token>, pos: nat)
    requires pos <= |toks|
    ensures var r := ParseParams(toks, pos);
            r.Ok? ==> forall i :: 0 <= i < |r.value| ==>
              && pos + 2 * i < |toks|
              && toks[pos + 2 * i] == Token(TokenIdentifier, r.value[i])
              && (i + 1 < |r.value| ==> toks[pos + 2 * i + 1].kind == TokenComma)
  {
    var r := ParseParams(toks, pos);
    if r.Ok? && Kind(toks, pos) != TokenRParen {
      var rest := ParseMoreParams(toks, pos + 1);
      assert rest.Ok? && r.value == [toks[pos].value] + rest.value by {
        assert Consume(toks, pos, TokenIdentifier) == Ok(toks[pos], pos + 1);
      }
      MoreParamNames(toks, pos + 1);
      NamesThenMore(toks, pos, rest.value);
    }
  }

  /** A first IDENTIFIER followed by comma-separated names lays the whole
      list out on every other token. */
  lemma NamesThenMore(toks: seq<Token>, pos: nat, rest: seq<Bytes>)
    requires pos < |toks| && toks[pos].kind == TokenIdentifier
    requires forall i :: 0 <= i < |rest| ==>
               && pos + 1 + 2 * i + 1 < |toks|
               && toks[pos + 1 + 2 * i].kind == TokenComma && toks[pos + 1 + 2 * i + 1] == Token(TokenIdentifier, rest[i])
    ensures var names := [toks[pos].value] + rest;
            forall i :: 0 <= i < |names| ==>
              && pos + 2 * i < |toks|
              && toks[pos + 2 * i] == Token(TokenIdentifier, names[i])
              && (i + 1 < |names| ==> toks[pos + 2 * i + 1].kind == TokenComma)
  {
    var names := [toks[pos].value] + rest;
    forall i | 0 <= i < |names|
      ensures pos + 2 * i < |toks|
      ensures toks[pos + 2 * i] == Token(TokenIdentifier, names[i])
      ensures i + 1 < |names| ==> toks[pos + 2 * i + 1].kind == TokenComma
    {
      if i + 1 < |names| {
        assert toks[pos + 1 + 2 * i].kind == TokenComma;
      }
      if i > 0 {
        assert names[i] == rest[i - 1];
        assert toks[pos + 1 + 2 * (i - 1) + 1] == Token(TokenIdentifier, rest[i - 1]);
      }
    }
  }

  /** Operators of one precedence level group to the left: three terms
      joined by two operators, `a + b * c` say, parse as `(a + b) * c`,
      whatever the terms are. */
  lemma LeftAssociative(toks: seq<Token>, pos: nat, a: Node, b: Node, c: Node, p1: nat, p2: nat, end: nat)
    requires pos <= |toks| && ParseTerm(toks, pos) == Ok(a, p1)
    requires p1 < |toks| && IsOperator(toks[p1].kind) && ParseTerm(toks, p1 + 1) == Ok(b, p2)
    requires p2 < |toks| && IsOperator(toks[p2].kind) && ParseTerm(toks, p2 + 1) == Ok(c, end)
    requires !IsOperator(Kind(toks, end))
    ensures ParseExpression(toks, pos) == Ok(BinaryOpNode(BinaryOpNode(a, toks[p1].kind, b), toks[p2].kind, c), end)
  {
    Parser.OperatorsStep(toks, p1, a);
    Parser.OperatorsStep(toks, p2, BinaryOpNode(a, toks[p1].kind, b));
  }

  /** parsePrint's record of a text: interpolated iff the text holds a
      placeholder, with each captured name listed once. */
  lemma PrintRecords(toks: seq<Token>, pos: nat)
    requires pos <= |toks|
    ensures var r := ParsePrint(toks, pos);
            r.Ok? ==> && (r.value.interpolated <==> exists k: nat :: Placeholders.PlaceholderAt(r.value.text, k))
                      && (forall name :: name in r.value.variables <==>
                            exists k: nat :: Placeholders.PlaceholderAt(r.value.text, k) && Placeholders.PlaceholderName(r.value.text, k) == name)
                      && (forall a, b :: 0 <= a < b < |r.value.variables| ==> r.value.variables[a] != r.value.variables[b])
  {
    var r := ParsePrint(toks, pos);
    if r.Ok? {
      Placeholders.VariablesExact(r.value.text);
    }
  }

  /** The lexer's guarantee that no STRING token holds `💱{` is the
      parser's premise that no STRING token holds a placeholder. */
  lemma PlainBridge(toks: seq<Token>)
    requires LexerProps.PlainStrings(toks)
    ensures Plain(toks)
  {
    forall i | 0 <= i < |toks| && toks[i].kind == TokenString
      ensures Placeholders.Variables(toks[i].value) == []
    {
      Placeholders.NoMarkerNoPlaceholder(toks[i].value);
    }
  }

  /** Source text that goes through the lexer and then the parser never
      yields an interpolating print, anywhere in the tree: the lexer cuts
      every `💱{name}` out of the string before the parser sees it. */
  lemma LexedPrintsPlain(input: Bytes)
    ensures var r := Parse(Tokenize(input).tokens);
            r.Ok? ==> AllUninterpolated(r.value)
  {
    LexerProps.LexFromTokens(input, 0);
    PlainBridge(Tokenize(input).tokens);
  }
}
