/** The parser of internal/parser/parser.go as the source writes it: a token
    list and a cursor `pos` that `consume` and the loops move forward. Every
    method is proved to compute the function of the same name in Grammar,
    from the cursor it starts at, and to leave the cursor where that function
    says parsing continues. */
module Parser {
  import opened Text
  import opened Lexer
  import opened Ast
  import opened Grammar
  import Placeholders

  /** `ns` placed in front of the list a successful parse returns: the
      statements, parameters or arguments collected so far by a loop. */
  function Prepended<T>(ns: seq<T>, r: Parsed<seq<T>>): Parsed<seq<T>>
  {
    if r.Ok? then Ok(ns + r.value, r.next) else r
  }

  lemma PrependedEmpty<T>(r: Parsed<seq<T>>)
    ensures Prepended([], r) == r
  {
    if r.Ok? {
      assert [] + r.value == r.value;
    }
  }

  lemma PrependedTwice<T>(a: seq<T>, b: seq<T>, r: Parsed<seq<T>>)
    ensures Prepended(a, Prepended(b, r)) == Prepended(a + b, r)
  {
    if r.Ok? {
      assert a + (b + r.value) == (a + b) + r.value;
    }
  }

  /** One operator-term step of parseExpression's loop. */
  lemma OperatorsStep(toks: seq<Token>, pos: nat, left: Node)
    requires pos < |toks| && IsOperator(toks[pos].kind)
    ensures var right := ParseTerm(toks, pos + 1);
            ParseOperators(toks, pos, left)
            == if right.Ok? then ParseOperators(toks, right.next, BinaryOpNode(left, toks[pos].kind, right.value))
               else right.PropagateFailure()
  {
  }

  /** One statement of Parse's loop. */
  lemma TopStep(toks: seq<Token>, pos: nat)
    requires pos < |toks| && Kind(toks, pos) != TokenEOF
    ensures var s := Grammar.ParseStatement(toks, pos);
            ParseTop(toks, pos)
            == if !s.Ok? then s.PropagateFailure()
               else if s.value.None? then ParseTop(toks, pos + 1)
               else Prepended([s.value.value], ParseTop(toks, s.next))
  {
  }

  class Parser {
    const tokens: seq<Token>
    var pos: nat

    /** NewParser: the cursor starts at the first token. */
    constructor (tokens: seq<Token>)
      ensures this.tokens == tokens && pos == 0
    {
      this.tokens := tokens;
      pos := 0;
    }

    /** currentToken: the token under the cursor, or EOF past the end. */
    function CurrentToken(): (t: Token)
      reads this
      ensures pos >= |tokens| ==> t == Token(TokenEOF, "")
      ensures pos < |tokens| ==> t == tokens[pos]
    {
      Grammar.CurrentToken(tokens, pos)
    }

    /** consume: returns the current token and advances by exactly one when
        its kind is `k`; otherwise panics and leaves the cursor alone. */
    method Consume(k: TokenType) returns (r: Parsed<Token>)
      modifies this
      ensures r == Grammar.Consume(tokens, old(pos), k)
      ensures r.Ok? ==> r.value == old(CurrentToken()) && pos == old(pos) + 1
      ensures !r.Ok? ==> pos == old(pos)
    {
      if CurrentToken().kind != k {
        return Abort(Expected(k, CurrentToken()));
      }
      var token := CurrentToken();
      pos := pos + 1;
      return Ok(token, pos);
    }

    /** Parse: statements up to EOF; a statement that returns nil is
        skipped by moving the cursor one token on. */
    method Parse() returns (r: Parsed<seq<Node>>)
      requires pos <= |tokens|
      modifies this
      ensures r == ParseTop(tokens, old(pos))
      ensures r.Ok? ==> pos == r.next
    {
      var nodes: seq<Node> := [];
      PrependedEmpty(ParseTop(tokens, pos));
      while CurrentToken().kind != TokenEOF
        invariant old(pos) <= pos <= |tokens|
        invariant ParseTop(tokens, old(pos)) == Prepended(nodes, ParseTop(tokens, pos))
        decreases |tokens| - pos
      {
        ghost var before := nodes;
        TopStep(tokens, pos);
        var node := ParseStatement();
        if node.Abort? {
          return Abort(node.error);
        }
        if node.Diverge? {
          return Diverge;
        }
        if node.value.Some? {
          nodes := nodes + [node.value.value];
          PrependedTwice(before, [node.value.value], ParseTop(tokens, pos));
        } else {
          pos := pos + 1;
        }
      }
      assert ParseTop(tokens, pos) == Ok([], pos);
      assert nodes + [] == nodes;
      return Ok(nodes, pos);
    }

    /** parseStatement: dispatch on the current token; None (Go's nil) on
        a token no statement starts with, without consuming it. */
    method ParseStatement() returns (r: Parsed<Option<Node>>)
      requires pos <= |tokens|
      modifies this
      decreases |tokens| - pos, 6
      ensures r == Grammar.ParseStatement(tokens, old(pos))
      ensures r.Ok? ==> pos == r.next
    {
      if !StartsStatement(CurrentToken().kind) {
        return Ok(None, pos);
      }
      var n := ParseStatementNode();
      return AsStatement(n);
    }

    /** The cases of parseStatement that build a node. */
    method ParseStatementNode() returns (r: Parsed<Node>)
      requires pos <= |tokens| && StartsStatement(Kind(tokens, pos))
      modifies this
      decreases |tokens| - pos, 5
      ensures r == Grammar.ParseStatementNode(tokens, old(pos))
      ensures r.Ok? ==> pos == r.next
    {
      var k := tokens[pos].kind;
      if k == TokenPrint {
        r := ParsePrint();
      } else if k == TokenAssign {
        r := ParseAssign();
      } else if k == TokenMain {
        r := ParseMain();
      } else if k == TokenTryStart {
        r := ParseTryCatch();
      } else if k == TokenFunction {
        r := ParseFunction();
      } else if k == TokenReturn {
        r := ParseReturn();
      } else {
        r := ParseIdentifierStatement();
      }
    }

    /** The IDENTIFIER case of parseStatement, decided by one token of
        lookahead. */
    method ParseIdentifierStatement() returns (r: Parsed<Node>)
      requires pos < |tokens| && tokens[pos].kind == TokenIdentifier
      modifies this
      decreases |tokens| - pos, 4
      ensures r == Grammar.ParseIdentifierStatement(tokens, old(pos))
      ensures r.Ok? ==> pos == r.next
    {
      if pos + 1 < |tokens| && tokens[pos + 1].kind == TokenEqual {
        r := ParseEqual();
      } else if pos + 1 < |tokens| && tokens[pos + 1].kind == TokenLParen {
        r := ParseFunctionCall();
      } else {
        var name := Consume(TokenIdentifier);
        r := Ok(VariableNode(name.value.value), pos);
      }
    }

    /** parsePrint: PRINT and a STRING, scanned for placeholders. */
    method ParsePrint() returns (r: Parsed<Node>)
      requires pos <= |tokens|
      modifies this
      decreases |tokens| - pos, 4
      ensures r == Grammar.ParsePrint(tokens, old(pos))
      ensures r.Ok? ==> pos == r.next
    {
      var kw :- Consume(TokenPrint);
      if CurrentToken().kind != TokenString {
        return Abort(ExpectedString(CurrentToken()));
      }
      var text := Consume(TokenString);
      var variables := Placeholders.Variables(text.value.value);
      var interpolated := |variables| > 0;
      return Ok(PrintNode(text.value.value, interpolated, variables), pos);
    }

    /** The Atoi step of parseAssign and parseEqual. */
    method ParseNumber() returns (r: Parsed<int>)
      requires pos <= |tokens|
      modifies this
      ensures r == Grammar.ParseNumber(tokens, old(pos))
      ensures r.Ok? ==> pos == r.next
    {
      var num :- Consume(TokenNumber);
      var a := Atoi(num.value.value);
      if !a.ok {
        return Abort(InvalidNumber(CurrentToken().value));
      }
      return Ok(a.value, pos);
    }

    /** parseAssign: ASSIGN name `=` and a call, a STRING or a NUMBER. */
    method ParseAssign() returns (r: Parsed<Node>)
      requires pos <= |tokens|
      modifies this
      decreases |tokens| - pos, 4
      ensures r == Grammar.ParseAssign(tokens, old(pos))
      ensures r.Ok? ==> pos == r.next
    {
      var kw :- Consume(TokenAssign);
      var name :- Consume(TokenIdentifier);
      var eq :- Consume(TokenEqualSign);
      var value :- ParseAssignValue();
      return Ok(AssignNode(name.value.value, value.value), pos);
    }

    /** The value parseAssign stores: a call, a STRING or a NUMBER. */
    method ParseAssignValue() returns (r: Parsed<AssignValue>)
      requires pos <= |tokens|
      modifies this
      decreases |tokens| - pos, 1
      ensures r == Grammar.ParseAssignValue(tokens, old(pos))
      ensures r.Ok? ==> pos == r.next
    {
      if CurrentToken().kind == TokenIdentifier && pos + 1 < |tokens| && tokens[pos + 1].kind == TokenLParen {
        var call :- ParseFunctionCall();
        return Ok(FromNode(call.value), pos);
      }
      if CurrentToken().kind == TokenString {
        var value := Consume(TokenString);
        return Ok(Constant(LitStr(value.value.value)), pos);
      }
      var n :- ParseNumber();
      return Ok(Constant(LitInt(n.value)), pos);
    }

    /** parseEqual: name EQUAL and a STRING or a NUMBER. */
    method ParseEqual() returns (r: Parsed<Node>)
      requires pos <= |tokens|
      modifies this
      decreases |tokens| - pos, 4
      ensures r == Grammar.ParseEqual(tokens, old(pos))
      ensures r.Ok? ==> pos == r.next
    {
      var name :- Consume(TokenIdentifier);
      var eq :- Consume(TokenEqual);
      if CurrentToken().kind == TokenString {
        var value := Consume(TokenString);
        return Ok(EqualNode(name.value.value, LitStr(value.value.value)), pos);
      }
      var n :- ParseNumber();
      return Ok(EqualNode(name.value.value, LitInt(n.value)), pos);
    }

    /** The statement loop shared by main, try, catch and function bodies.
        Where the source's loop gets nil from parseStatement it consumed
        nothing, and would call it again on the same token for ever; the
        method reports that as Diverge instead of looping. */
    method ParseBody() returns (r: Parsed<seq<Node>>)
      requires pos <= |tokens|
      modifies this
      decreases |tokens| - pos, 7
      ensures r == Grammar.ParseBody(tokens, old(pos))
      ensures r.Ok? ==> pos == r.next
    {
      var body: seq<Node> := [];
      PrependedEmpty(Grammar.ParseBody(tokens, pos));
      while CurrentToken().kind != TokenRBrace && CurrentToken().kind != TokenEOF
        invariant old(pos) <= pos <= |tokens|
        invariant Grammar.ParseBody(tokens, old(pos)) == Prepended(body, Grammar.ParseBody(tokens, pos))
        decreases |tokens| - pos
      {
        ghost var before := body;
        var node := ParseStatement();
        if node.Abort? {
          return Abort(node.error);
        }
        if node.Diverge? || node.value.None? {
          return Diverge;
        }
        body := body + [node.value.value];
        PrependedTwice(before, [node.value.value], Grammar.ParseBody(tokens, pos));
      }
      assert Grammar.ParseBody(tokens, pos) == Ok([], pos);
      assert body + [] == body;
      return Ok(body, pos);
    }

    /** LBRACE, the statement loop, RBRACE. */
    method ParseBlock() returns (r: Parsed<seq<Node>>)
      requires pos <= |tokens|
      modifies this
      decreases |tokens| - pos, 8
      ensures r == Grammar.ParseBlock(tokens, old(pos))
      ensures r.Ok? ==> pos == r.next
    {
      var open :- Consume(TokenLBrace);
      var body :- ParseBody();
      var close :- Consume(TokenRBrace);
      return Ok(body.value, pos);
    }

    /** parseMain: MAIN ASSIGN ASSIGN and a block. */
    method ParseMain() returns (r: Parsed<Node>)
      requires pos <= |tokens|
      modifies this
      decreases |tokens| - pos, 4
      ensures r == Grammar.ParseMain(tokens, old(pos))
      ensures r.Ok? ==> pos == r.next
    {
      var kw :- Consume(TokenMain);
      var a1 :- Consume(TokenAssign);
      var a2 :- Consume(TokenAssign);
      var body :- ParseBlock();
      return Ok(MainNode(body.value), pos);
    }

    /** The head of parseTryCatch: TRY_START name `,` NUMBER TRY. */
    method ParseTryHead() returns (r: Parsed<Token>)
      requires pos <= |tokens|
      modifies this
      ensures r == Grammar.ParseTryHead(tokens, old(pos))
      ensures r.Ok? ==> pos == r.next
    {
      var kw :- Consume(TokenTryStart);
      var name :- Consume(TokenIdentifier);
      var comma :- Consume(TokenComma);
      var count :- Consume(TokenNumber);
      r := Consume(TokenTry);
    }

    /** parseTryCatch: the head, a block, CATCH and a block. */
    method ParseTryCatch() returns (r: Parsed<Node>)
      requires pos <= |tokens|
      modifies this
      decreases |tokens| - pos, 4
      ensures r == Grammar.ParseTryCatch(tokens, old(pos))
      ensures r.Ok? ==> pos == r.next
    {
      var head :- ParseTryHead();
      r := ParseTryBlocks();
    }

    /** The two blocks of parseTryCatch around CATCH. */
    method ParseTryBlocks() returns (r: Parsed<Node>)
      requires pos <= |tokens|
      modifies this
      decreases |tokens| - pos, 9
      ensures r == Grammar.ParseTryBlocks(tokens, old(pos))
      ensures r.Ok? ==> pos == r.next
    {
      var tryBody :- ParseBlock();
      var catchBody :- ParseCatch();
      return Ok(TryCatchNode(tryBody.value, catchBody.value), pos);
    }

    /** CATCH and the block after it. */
    method ParseCatch() returns (r: Parsed<seq<Node>>)
      requires pos <= |tokens|
      modifies this
      decreases |tokens| - pos, 9
      ensures r == Grammar.ParseCatch(tokens, old(pos))
      ensures r.Ok? ==> pos == r.next
    {
      var catch :- Consume(TokenCatch);
      r := ParseBlock();
    }

    /** The parameter list of parseFunction: empty when RPAREN follows,
        otherwise a name and the `, name` loop. */
    method ParseParams() returns (r: Parsed<seq<Bytes>>)
      requires pos <= |tokens|
      modifies this
      ensures r == Grammar.ParseParams(tokens, old(pos))
      ensures r.Ok? ==> pos == r.next
    {
      if CurrentToken().kind == TokenRParen {
        return Ok([], pos);
      }
      var first :- Consume(TokenIdentifier);
      var rest :- ParseMoreParams();
      return Ok([first.value.value] + rest.value, pos);
    }

    /** The loop of parseFunction over `, name` repetitions. */
    method ParseMoreParams() returns (r: Parsed<seq<Bytes>>)
      requires pos <= |tokens|
      modifies this
      ensures r == Grammar.ParseMoreParams(tokens, old(pos))
      ensures r.Ok? ==> pos == r.next
    {
      var params: seq<Bytes> := [];
      PrependedEmpty(Grammar.ParseMoreParams(tokens, pos));
      while CurrentToken().kind == TokenComma
        invariant old(pos) <= pos <= |tokens|
        invariant Grammar.ParseMoreParams(tokens, old(pos)) == Prepended(params, Grammar.ParseMoreParams(tokens, pos))
        decreases |tokens| - pos
      {
        ghost var before := params;
        var comma := Consume(TokenComma);
        var name :- Consume(TokenIdentifier);
        params := params + [name.value.value];
        PrependedTwice(before, [name.value.value], Grammar.ParseMoreParams(tokens, pos));
      }
      assert params + [] == params;
      return Ok(params, pos);
    }

    /** parseFunction: FUNCTION name `(` parameters `)` and a block. */
    method ParseFunction() returns (r: Parsed<Node>)
      requires pos <= |tokens|
      modifies this
      decreases |tokens| - pos, 4
      ensures r == Grammar.ParseFunction(tokens, old(pos))
      ensures r.Ok? ==> pos == r.next
    {
      var kw :- Consume(TokenFunction);
      var name :- Consume(TokenIdentifier);
      var params :- ParseParamList();
      var body :- ParseBlock();
      return Ok(FunctionNode(FunctionDef(name.value.value, params.value, body.value)), pos);
    }

    /** `(` parameters `)`. */
    method ParseParamList() returns (r: Parsed<seq<Bytes>>)
      requires pos <= |tokens|
      modifies this
      ensures r == Grammar.ParseParamList(tokens, old(pos))
      ensures r.Ok? ==> pos == r.next
    {
      var lp :- Consume(TokenLParen);
      var params :- ParseParams();
      var rp :- Consume(TokenRParen);
      return Ok(params.value, pos);
    }

    /** parseReturn: RETURN and an expression. */
    method ParseReturn() returns (r: Parsed<Node>)
      requires pos <= |tokens|
      modifies this
      decreases |tokens| - pos, 4
      ensures r == Grammar.ParseReturn(tokens, old(pos))
      ensures r.Ok? ==> pos == r.next
    {
      var kw :- Consume(TokenReturn);
      var e :- ParseExpression();
      return Ok(ReturnNode(e.value), pos);
    }

    /** The argument list of parseFunctionCall: nothing when RPAREN
        follows, otherwise an expression and the `, expression` loop. */
    method ParseArgs() returns (r: Parsed<seq<Node>>)
      requires pos <= |tokens|
      modifies this
      decreases |tokens| - pos, 4
      ensures r == Grammar.ParseArgs(tokens, old(pos))
      ensures r.Ok? ==> pos == r.next
    {
      if CurrentToken().kind == TokenRParen {
        return Ok([], pos);
      }
      var first :- ParseExpression();
      var rest :- ParseMoreArgs();
      return Ok([first.value] + rest.value, pos);
    }

    /** The loop of parseFunctionCall over `, expression` repetitions. */
    method ParseMoreArgs() returns (r: Parsed<seq<Node>>)
      requires pos <= |tokens|
      modifies this
      decreases |tokens| - pos, 0
      ensures r == Grammar.ParseMoreArgs(tokens, old(pos))
      ensures r.Ok? ==> pos == r.next
    {
      var args: seq<Node> := [];
      PrependedEmpty(Grammar.ParseMoreArgs(tokens, pos));
      while CurrentToken().kind == TokenComma
        invariant old(pos) <= pos <= |tokens|
        invariant Grammar.ParseMoreArgs(tokens, old(pos)) == Prepended(args, Grammar.ParseMoreArgs(tokens, pos))
        decreases |tokens| - pos
      {
        ghost var before := args;
        var comma := Consume(TokenComma);
        var e :- ParseExpression();
        args := args + [e.value];
        PrependedTwice(before, [e.value], Grammar.ParseMoreArgs(tokens, pos));
      }
      assert args + [] == args;
      return Ok(args, pos);
    }

    /** parseFunctionCall: name `(` arguments `)`. */
    method ParseFunctionCall() returns (r: Parsed<Node>)
      requires pos <= |tokens|
      modifies this
      decreases |tokens| - pos, 0
      ensures r == Grammar.ParseFunctionCall(tokens, old(pos))
      ensures r.Ok? ==> pos == r.next
    {
      var name :- Consume(TokenIdentifier);
      var lp :- Consume(TokenLParen);
      var args :- ParseArgs();
      var rp :- Consume(TokenRParen);
      return Ok(FunctionCallNode(name.value.value, args.value), pos);
    }

    /** parseExpression: a term, then operator-term pairs folded to the left. */
    method ParseExpression() returns (r: Parsed<Node>)
      requires pos <= |tokens|
      modifies this
      decreases |tokens| - pos, 3
      ensures r == Grammar.ParseExpression(tokens, old(pos))
      ensures r.Ok? ==> pos == r.next
    {
      var term :- ParseTerm();
      r := ParseOperators(term.value);
    }

    /** The loop of parseExpression, starting from the chain `left`. */
    method ParseOperators(left: Node) returns (r: Parsed<Node>)
      requires pos <= |tokens|
      modifies this
      decreases |tokens| - pos, 2
      ensures r == Grammar.ParseOperators(tokens, old(pos), left)
      ensures r.Ok? ==> pos == r.next
    {
      var chain := left;
      while IsOperator(CurrentToken().kind)
        invariant old(pos) <= pos <= |tokens|
        invariant Grammar.ParseOperators(tokens, old(pos), left) == Grammar.ParseOperators(tokens, pos, chain)
        decreases |tokens| - pos
      {
        var step :- ParseOperator(chain);
        chain := step.value;
      }
      return Ok(chain, pos);
    }

    /** One pass of parseExpression's loop: the operator and the next term. */
    method ParseOperator(left: Node) returns (r: Parsed<Node>)
      requires pos < |tokens| && IsOperator(tokens[pos].kind)
      modifies this
      decreases |tokens| - pos, 1
      ensures r.Ok? ==> old(pos) < pos <= |tokens| && pos == r.next
      ensures r.Ok? ==> Grammar.ParseOperators(tokens, old(pos), left) == Grammar.ParseOperators(tokens, pos, r.value)
      ensures !r.Ok? ==> r == Grammar.ParseOperators(tokens, old(pos), left)
    {
      OperatorsStep(tokens, pos, left);
      var operator := CurrentToken();
      pos := pos + 1;
      var right :- ParseTerm();
      return Ok(BinaryOpNode(left, operator.kind, right.value), pos);
    }

    /** parseTerm: a call, a variable, a number or a string literal. */
    method ParseTerm() returns (r: Parsed<Node>)
      requires pos <= |tokens|
      modifies this
      decreases |tokens| - pos, 1
      ensures r == Grammar.ParseTerm(tokens, old(pos))
      ensures r.Ok? ==> pos == r.next
    {
      if CurrentToken().kind == TokenIdentifier {
        if pos + 1 < |tokens| && tokens[pos + 1].kind == TokenLParen {
          r := ParseFunctionCall();
          return;
        }
        var name := Consume(TokenIdentifier);
        return Ok(VariableNode(name.value.value), pos);
      }
      if CurrentToken().kind == TokenNumber {
        var num := Consume(TokenNumber);
        var value := Atoi(num.value.value).value;
        return Ok(AssignNode([], Constant(LitInt(value))), pos);
      }
      if CurrentToken().kind == TokenString {
        var value := Consume(TokenString);
        return Ok(StringLiteralNode(value.value.value), pos);
      }
      return Abort(UnexpectedTerm(CurrentToken().value));
    }
  }
}
