/** What the recursive-descent parser of internal/parser/parser.go computes,
    written as functions of the token list and the cursor position. Each
    function returns the node it builds and where it leaves the cursor; a
    `panic` becomes `Abort`, and a body loop that would spin forever on a
    token no statement starts with becomes `Diverge`. The Parser class
    (parser.dfy) runs the same steps on a mutable cursor and is proved to
    compute these functions. */
module Grammar {
  import opened Text
  import opened Lexer
  import opened Ast
  import Placeholders

  /** The panics of the parser. `InvalidNumber` shows the value of the token
      AFTER the rejected number, which is what the source formats. */
  datatype ParseError =
    | Expected(wanted: TokenType, found: Token)
    | ExpectedString(found: Token)
    | InvalidNumber(shown: Bytes)
    | UnexpectedTerm(shown: Bytes)

  /** The outcome of a parse step: a value and the new cursor, a panic, or
      a loop that never ends. */
  datatype Parsed<T> = Ok(value: T, next: nat) | Abort(error: ParseError) | Diverge
  {
    predicate IsFailure()
    {
      !Ok?
    }

    function PropagateFailure<U>(): Parsed<U>
      requires !Ok?
    {
      if Abort? then Abort(error) else Diverge
    }

    function Extract(): Parsed<T>
      requires Ok?
    {
      this
    }
  }

  /** The token under the cursor; past the end the parser sees EOF. */
  function CurrentToken(toks: seq<Token>, pos: nat): Token
  {
    if pos >= |toks| then EofToken else toks[pos]
  }

  function Kind(toks: seq<Token>, pos: nat): TokenType
  {
    CurrentToken(toks, pos).kind
  }

  /** The one-token lookahead the parser does by indexing `p.tokens[p.pos+1]`. */
  predicate NextIs(toks: seq<Token>, pos: nat, k: TokenType)
  {
    pos + 1 < |toks| && toks[pos + 1].kind == k
  }

  predicate IsOperator(k: TokenType)
  {
    k == TokenPlus || k == TokenMult || k == TokenNumPlus || k == TokenConcat
  }

  /** The token kinds parseStatement dispatches on; on any other it returns nil. */
  predicate StartsStatement(k: TokenType)
  {
    k == TokenPrint || k == TokenAssign || k == TokenMain || k == TokenTryStart
    || k == TokenFunction || k == TokenReturn || k == TokenIdentifier
  }

  /** The kinds that end a statement list inside braces. */
  predicate ClosesBody(k: TokenType)
  {
    k == TokenRBrace || k == TokenEOF
  }

  /** Some PrintNode in the tree (function bodies included) is marked as
      interpolated. */
  predicate HasInterpolation(n: Node)
    decreases n, 1
  {
    match n
    case PrintNode(_, interpolated, _) => interpolated
    case AssignNode(_, FromNode(m)) => HasInterpolation(m)
    case BinaryOpNode(l, _, r) => HasInterpolation(l) || HasInterpolation(r)
    case ReturnNode(m) => HasInterpolation(m)
    case FunctionNode(def) => AnyInterpolation(def.body)
    case FunctionCallNode(_, args) => AnyInterpolation(args)
    case MainNode(body) => AnyInterpolation(body)
    case TryCatchNode(t, c) => AnyInterpolation(t) || AnyInterpolation(c)
    case _ => false
  }

  predicate AnyInterpolation(ns: seq<Node>)
    decreases ns, 0
  {
    exists i :: 0 <= i < |ns| && HasInterpolation(ns[i])
  }

  predicate Uninterpolated(n: Node)
  {
    !HasInterpolation(n)
  }

  predicate AllUninterpolated(ns: seq<Node>)
  {
    !AnyInterpolation(ns)
  }

  lemma ConsUninterpolated(n: Node, rest: seq<Node>)
    ensures AllUninterpolated([n] + rest) <==> Uninterpolated(n) && AllUninterpolated(rest)
  {
    var ns := [n] + rest;
    assert ns[0] == n;
    if AnyInterpolation(rest) {
      var i :| 0 <= i < |rest| && HasInterpolation(rest[i]);
      assert ns[i + 1] == rest[i];
    }
    if AnyInterpolation(ns) {
      var i :| 0 <= i < |ns| && HasInterpolation(ns[i]);
      if i > 0 {
        assert ns[i] == rest[i - 1];
      }
    }
  }

  /** No STRING token of `toks` holds a placeholder. */
  predicate Plain(toks: seq<Token>)
  {
    forall i :: 0 <= i < |toks| && toks[i].kind == TokenString ==> Placeholders.Variables(toks[i].value) == []
  }

  /** A term: what parseTerm returns. */
  predicate IsTerm(n: Node)
  {
    n.VariableNode? || n.FunctionCallNode? || n.StringLiteralNode? || (n.AssignNode? && n.name == [])
  }

  /** A chain of binary operators that leans left: every right operand is a
      term, never another operator node. */
  predicate LeftChain(n: Node)
  {
    IsTerm(n) || (n.BinaryOpNode? && IsOperator(n.op) && IsTerm(n.right) && LeftChain(n.left))
  }

  /** consume: the current token and one step on when its kind matches,
      a panic otherwise. */
  function Consume(toks: seq<Token>, pos: nat, k: TokenType): (r: Parsed<Token>)
    ensures r.Ok? <==> Kind(toks, pos) == k
    ensures r.Ok? ==> r.value == CurrentToken(toks, pos) && r.next == pos + 1
    ensures r.Ok? && k != TokenEOF ==> r.next <= |toks| && r.value == toks[pos]
    ensures r.Abort? ==> r.error == Expected(k, CurrentToken(toks, pos))
  {
    if Kind(toks, pos) == k then Ok(CurrentToken(toks, pos), pos + 1)
    else Abort(Expected(k, CurrentToken(toks, pos)))
  }

  function AsStatement(r: Parsed<Node>): (s: Parsed<Option<Node>>)
  {
    match r
    case Ok(n, p) => Ok(Some(n), p)
    case Abort(e) => Abort(e)
    case Diverge => Diverge
  }

  /** parseStatement: dispatch on the current token; nil (None) without
      consuming anything on a token no statement starts with. */
  function ParseStatement(toks: seq<Token>, pos: nat): (r: Parsed<Option<Node>>)
    requires pos <= |toks|
    decreases |toks| - pos, 6
    ensures r.Ok? ==> pos <= r.next <= |toks|
    ensures r.Ok? ==> (r.value.None? <==> r.next == pos)
    ensures (r.Ok? && r.value.None?) <==> !StartsStatement(Kind(toks, pos))
    ensures r.Ok? && r.value.Some? && Plain(toks) ==> Uninterpolated(r.value.value)
  {
    if StartsStatement(Kind(toks, pos)) then AsStatement(ParseStatementNode(toks, pos))
    else Ok(None, pos)
  }

  /** The cases of parseStatement that build a node. */
  function ParseStatementNode(toks: seq<Token>, pos: nat): (r: Parsed<Node>)
    requires pos <= |toks| && StartsStatement(Kind(toks, pos))
    decreases |toks| - pos, 5
    ensures r.Ok? ==> pos < r.next <= |toks|
    ensures r.Ok? && Plain(toks) ==> Uninterpolated(r.value)
  {
    var k := toks[pos].kind;
    if k == TokenPrint then ParsePrint(toks, pos)
    else if k == TokenAssign then ParseAssign(toks, pos)
    else if k == TokenMain then ParseMain(toks, pos)
    else if k == TokenTryStart then ParseTryCatch(toks, pos)
    else if k == TokenFunction then ParseFunction(toks, pos)
    else if k == TokenReturn then ParseReturn(toks, pos)
    else ParseIdentifierStatement(toks, pos)
  }

  /** The IDENTIFIER case of parseStatement: a comparison when EQUAL
      follows, a call when `(` follows, otherwise a variable reference. */
  function ParseIdentifierStatement(toks: seq<Token>, pos: nat): (r: Parsed<Node>)
    requires pos < |toks| && toks[pos].kind == TokenIdentifier
    decreases |toks| - pos, 4
    ensures r.Ok? ==> pos < r.next <= |toks|
    ensures r.Ok? && Plain(toks) ==> Uninterpolated(r.value)
  {
    if NextIs(toks, pos, TokenEqual) then ParseEqual(toks, pos)
    else if NextIs(toks, pos, TokenLParen) then ParseFunctionCall(toks, pos)
    else Ok(VariableNode(toks[pos].value), pos + 1)
  }

  /** parsePrint: PRINT, then a STRING whose placeholders decide whether the
      node is interpolated and which variables it names. */
  function ParsePrint(toks: seq<Token>, pos: nat): (r: Parsed<Node>)
    requires pos <= |toks|
    decreases |toks| - pos, 4
    ensures r.Ok? ==> pos < r.next <= |toks| && r.value.PrintNode?
    ensures r.Ok? <==> Kind(toks, pos) == TokenPrint && Kind(toks, pos + 1) == TokenString
    ensures r.Ok? ==> r.next == pos + 2 && r.value.text == toks[pos + 1].value
    ensures Kind(toks, pos) != TokenPrint ==> r == Abort(Expected(TokenPrint, CurrentToken(toks, pos)))
    ensures Kind(toks, pos) == TokenPrint && Kind(toks, pos + 1) != TokenString
            ==> r == Abort(ExpectedString(CurrentToken(toks, pos + 1)))
    ensures r.Ok? ==> r.value.variables == Placeholders.Variables(r.value.text)
                      && (r.value.interpolated <==> r.value.variables != [])
    ensures r.Ok? && Plain(toks) ==> Uninterpolated(r.value)
  {
    var kw :- Consume(toks, pos, TokenPrint);
    if Kind(toks, kw.next) != TokenString then Abort(ExpectedString(CurrentToken(toks, kw.next)))
    else
      var text := toks[kw.next].value;
      var variables := Placeholders.Variables(text);
      Ok(PrintNode(text, |variables| > 0, variables), kw.next + 1)
  }

  /** A NUMBER token read by Atoi; a range error panics, and the message
      shows the token after the number. */
  function ParseNumber(toks: seq<Token>, pos: nat): (r: Parsed<int>)
    requires pos <= |toks|
    ensures r.Ok? <==> Kind(toks, pos) == TokenNumber && Atoi(toks[pos].value).ok
    ensures r.Ok? ==> r.next == pos + 1 <= |toks| && Atoi(toks[pos].value) == AtoiResult(r.value, true)
    ensures !r.Ok? ==> r.Abort?
    ensures Kind(toks, pos) != TokenNumber ==> r == Abort(Expected(TokenNumber, CurrentToken(toks, pos)))
    ensures Kind(toks, pos) == TokenNumber && !Atoi(toks[pos].value).ok ==>
              r == Abort(InvalidNumber(CurrentToken(toks, pos + 1).value))
  {
    var num :- Consume(toks, pos, TokenNumber);
    var a := Atoi(num.value.value);
    if !a.ok then Abort(InvalidNumber(CurrentToken(toks, num.next).value))
    else Ok(a.value, num.next)
  }

  /** parseAssign: ASSIGN name `=`, then a call, a STRING or a NUMBER. No
      type annotation is read between the name and `=`. */
  function ParseAssign(toks: seq<Token>, pos: nat): (r: Parsed<Node>)
    requires pos <= |toks|
    decreases |toks| - pos, 4
    ensures r.Ok? ==> pos < r.next <= |toks| && r.value.AssignNode?
    ensures r.Ok? ==> && Kind(toks, pos) == TokenAssign && Kind(toks, pos + 1) == TokenIdentifier
                      && Kind(toks, pos + 2) == TokenEqualSign && r.value.name == toks[pos + 1].value
    ensures r.Ok? && r.value.value.FromNode? ==> r.value.value.node.FunctionCallNode?
    ensures r.Ok? && Plain(toks) ==> Uninterpolated(r.value)
  {
    var kw :- Consume(toks, pos, TokenAssign);
    var name :- Consume(toks, kw.next, TokenIdentifier);
    var eq :- Consume(toks, name.next, TokenEqualSign);
    var value :- ParseAssignValue(toks, eq.next);
    Ok(AssignNode(name.value.value, value.value), value.next)
  }

  /** What parseAssign stores: a call when IDENTIFIER `(` follows, else a
      STRING, else a NUMBER. */
  function ParseAssignValue(toks: seq<Token>, pos: nat): (r: Parsed<AssignValue>)
    requires pos <= |toks|
    decreases |toks| - pos, 1
    ensures r.Ok? ==> pos < r.next <= |toks|
    ensures r.Ok? ==> (r.value.FromNode? <==> Kind(toks, pos) == TokenIdentifier && NextIs(toks, pos, TokenLParen))
    ensures r.Ok? && r.value.FromNode? ==> r.value.node.FunctionCallNode?
    ensures Kind(toks, pos) == TokenString ==> r == Ok(Constant(LitStr(toks[pos].value)), pos + 1)
    ensures !(Kind(toks, pos) == TokenIdentifier && NextIs(toks, pos, TokenLParen)) && Kind(toks, pos) != TokenString ==>
              && (r.Ok? <==> ParseNumber(toks, pos).Ok?)
              && (r.Ok? ==> r == Ok(Constant(LitInt(Atoi(toks[pos].value).value)), pos + 1))
              && (!r.Ok? ==> r == Abort(ParseNumber(toks, pos).error))
    ensures r.Ok? && r.value.FromNode? && Plain(toks) ==> Uninterpolated(r.value.node)
  {
    if Kind(toks, pos) == TokenIdentifier && NextIs(toks, pos, TokenLParen) then
      var call :- ParseFunctionCall(toks, pos);
      Ok(FromNode(call.value), call.next)
    else if Kind(toks, pos) == TokenString then
      Ok(Constant(LitStr(toks[pos].value)), pos + 1)
    else
      var n :- ParseNumber(toks, pos);
      Ok(Constant(LitInt(n.value)), n.next)
  }

  /** parseEqual: name EQUAL, then a STRING or a NUMBER to compare with. */
  function ParseEqual(toks: seq<Token>, pos: nat): (r: Parsed<Node>)
    requires pos <= |toks|
    decreases |toks| - pos, 4
    ensures r.Ok? ==> pos < r.next <= |toks| && r.value.EqualNode?
    ensures r.Ok? <==> && Kind(toks, pos) == TokenIdentifier && Kind(toks, pos + 1) == TokenEqual
                       && (Kind(toks, pos + 2) == TokenString
                           || (Kind(toks, pos + 2) == TokenNumber && Atoi(toks[pos + 2].value).ok))
    ensures r.Ok? ==> && r.next == pos + 3
                      && r.value == EqualNode(toks[pos].value,
                                              if Kind(toks, pos + 2) == TokenString then LitStr(toks[pos + 2].value)
                                              else LitInt(Atoi(toks[pos + 2].value).value))
    ensures r.Ok? && Plain(toks) ==> Uninterpolated(r.value)
  {
    var name :- Consume(toks, pos, TokenIdentifier);
    var eq :- Consume(toks, name.next, TokenEqual);
    var p := eq.next;
    if Kind(toks, p) == TokenString then
      Ok(EqualNode(name.value.value, LitStr(toks[p].value)), p + 1)
    else
      var n :- ParseNumber(toks, p);
      Ok(EqualNode(name.value.value, LitInt(n.value)), n.next)
  }

  /** The statement loop of a braced body: statements up to RBRACE or EOF.
      When parseStatement returns nil nothing was consumed, so the source's
      loop would run forever on the same token: that is `Diverge`. */
  function ParseBody(toks: seq<Token>, pos: nat): (r: Parsed<seq<Node>>)
    requires pos <= |toks|
    decreases |toks| - pos, 7
    ensures r.Ok? ==> pos <= r.next <= |toks| && ClosesBody(Kind(toks, r.next))
    ensures r.Ok? && Plain(toks) ==> AllUninterpolated(r.value)
  {
    if ClosesBody(Kind(toks, pos)) then Ok([], pos)
    else
      match ParseStatement(toks, pos)
      case Abort(e) => Abort(e)
      case Diverge => Diverge
      case Ok(None, _) => Diverge
      case Ok(Some(n), p) =>
        var rest :- ParseBody(toks, p);
        Ok([n] + rest.value, rest.next)
  }

  /** A braced body: LBRACE, statements, RBRACE. */
  function ParseBlock(toks: seq<Token>, pos: nat): (r: Parsed<seq<Node>>)
    requires pos <= |toks|
    decreases |toks| - pos, 8
    ensures r.Ok? ==> pos < r.next <= |toks|
    ensures r.Ok? ==> Kind(toks, pos) == TokenLBrace && Kind(toks, r.next - 1) == TokenRBrace
    ensures r.Ok? && Plain(toks) ==> AllUninterpolated(r.value)
  {
    var open :- Consume(toks, pos, TokenLBrace);
    var body :- ParseBody(toks, open.next);
    var close :- Consume(toks, body.next, TokenRBrace);
    Ok(body.value, close.next)
  }

  /** parseMain: MAIN, two ASSIGN tokens (◀️ is read as ASSIGN), a block. */
  function ParseMain(toks: seq<Token>, pos: nat): (r: Parsed<Node>)
    requires pos <= |toks|
    decreases |toks| - pos, 4
    ensures r.Ok? ==> pos < r.next <= |toks| && r.value.MainNode?
    ensures r.Ok? ==> Kind(toks, pos) == TokenMain && Kind(toks, pos + 1) == TokenAssign && Kind(toks, pos + 2) == TokenAssign
    ensures r.Ok? && Plain(toks) ==> Uninterpolated(r.value)
  {
    var kw :- Consume(toks, pos, TokenMain);
    var a1 :- Consume(toks, kw.next, TokenAssign);
    var a2 :- Consume(toks, a1.next, TokenAssign);
    var body :- ParseBlock(toks, a2.next);
    Ok(MainNode(body.value), body.next)
  }

  /** The head of parseTryCatch: TRY_START name `,` NUMBER TRY. The name
      and the number are read and dropped. */
  function ParseTryHead(toks: seq<Token>, pos: nat): (r: Parsed<Token>)
    requires pos <= |toks|
    ensures r.Ok? <==> && Kind(toks, pos) == TokenTryStart && Kind(toks, pos + 1) == TokenIdentifier
                       && Kind(toks, pos + 2) == TokenComma && Kind(toks, pos + 3) == TokenNumber
                       && Kind(toks, pos + 4) == TokenTry
    ensures r.Ok? ==> r.next == pos + 5 <= |toks|
    ensures !r.Ok? ==> r.Abort?
  {
    var kw :- Consume(toks, pos, TokenTryStart);
    var name :- Consume(toks, kw.next, TokenIdentifier);
    var comma :- Consume(toks, name.next, TokenComma);
    var count :- Consume(toks, comma.next, TokenNumber);
    Consume(toks, count.next, TokenTry)
  }

  /** parseTryCatch: the head, then the two blocks. */
  function ParseTryCatch(toks: seq<Token>, pos: nat): (r: Parsed<Node>)
    requires pos <= |toks|
    decreases |toks| - pos, 4
    ensures r.Ok? ==> pos < r.next <= |toks| && r.value.TryCatchNode?
    ensures r.Ok? && Plain(toks) ==> Uninterpolated(r.value)
  {
    var head :- ParseTryHead(toks, pos);
    ParseTryBlocks(toks, head.next)
  }

  /** The rest of parseTryCatch: a block, CATCH and a block. */
  function ParseTryBlocks(toks: seq<Token>, pos: nat): (r: Parsed<Node>)
    requires pos <= |toks|
    decreases |toks| - pos, 9
    ensures r.Ok? ==> pos < r.next <= |toks| && r.value.TryCatchNode?
    ensures r.Ok? && Plain(toks) ==> Uninterpolated(r.value)
  {
    var tryBody :- ParseBlock(toks, pos);
    var catchBody :- ParseCatch(toks, tryBody.next);
    Ok(TryCatchNode(tryBody.value, catchBody.value), catchBody.next)
  }

  /** CATCH and the block after it. */
  function ParseCatch(toks: seq<Token>, pos: nat): (r: Parsed<seq<Node>>)
    requires pos <= |toks|
    decreases |toks| - pos, 9
    ensures r.Ok? ==> pos < r.next <= |toks|
    ensures r.Ok? ==> Kind(toks, pos) == TokenCatch
    ensures r.Ok? && Plain(toks) ==> AllUninterpolated(r.value)
  {
    var catch :- Consume(toks, pos, TokenCatch);
    ParseBlock(toks, catch.next)
  }

  /** The `, name` repetitions of a parameter list. */
  function ParseMoreParams(toks: seq<Token>, pos: nat): (r: Parsed<seq<Bytes>>)
    requires pos <= |toks|
    decreases |toks| - pos
    ensures r.Ok? ==> pos <= r.next <= |toks| && Kind(toks, r.next) != TokenComma
    ensures r.Ok? ==> r.next == pos + 2 * |r.value|
  {
    if Kind(toks, pos) != TokenComma then Ok([], pos)
    else
      var name :- Consume(toks, pos + 1, TokenIdentifier);
      var rest :- ParseMoreParams(toks, name.next);
      Ok([name.value.value] + rest.value, rest.next)
  }

  /** The parameter list between the parentheses: empty when RPAREN follows. */
  function ParseParams(toks: seq<Token>, pos: nat): (r: Parsed<seq<Bytes>>)
    requires pos <= |toks|
    ensures r.Ok? ==> pos <= r.next <= |toks|
    ensures r.Ok? ==> (r.value == [] <==> Kind(toks, pos) == TokenRParen)
    ensures r.Ok? ==> r.next == if r.value == [] then pos else pos + 2 * |r.value| - 1
    ensures r.Ok? ==> Kind(toks, r.next) != TokenComma
  {
    if Kind(toks, pos) == TokenRParen then Ok([], pos)
    else
      var first :- Consume(toks, pos, TokenIdentifier);
      var rest :- ParseMoreParams(toks, first.next);
      Ok([first.value.value] + rest.value, rest.next)
  }

  /** parseFunction: FUNCTION name `(` parameters `)` block. */
  function ParseFunction(toks: seq<Token>, pos: nat): (r: Parsed<Node>)
    requires pos <= |toks|
    decreases |toks| - pos, 4
    ensures r.Ok? ==> pos < r.next <= |toks| && r.value.FunctionNode?
    ensures r.Ok? ==> && Kind(toks, pos) == TokenFunction && Kind(toks, pos + 1) == TokenIdentifier
                      && r.value.def.name == toks[pos + 1].value
    ensures r.Ok? && Plain(toks) ==> Uninterpolated(r.value)
  {
    var kw :- Consume(toks, pos, TokenFunction);
    var name :- Consume(toks, kw.next, TokenIdentifier);
    var params :- ParseParamList(toks, name.next);
    var body :- ParseBlock(toks, params.next);
    Ok(FunctionNode(FunctionDef(name.value.value, params.value, body.value)), body.next)
  }

  /** The parenthesised parameter list of parseFunction. */
  function ParseParamList(toks: seq<Token>, pos: nat): (r: Parsed<seq<Bytes>>)
    requires pos <= |toks|
    ensures r.Ok? ==> pos < r.next <= |toks|
    ensures r.Ok? <==> && Kind(toks, pos) == TokenLParen && ParseParams(toks, pos + 1).Ok?
                       && Kind(toks, ParseParams(toks, pos + 1).next) == TokenRParen
    ensures r.Ok? ==> r.value == ParseParams(toks, pos + 1).value && r.next == ParseParams(toks, pos + 1).next + 1
  {
    var lp :- Consume(toks, pos, TokenLParen);
    var params :- ParseParams(toks, lp.next);
    var rp :- Consume(toks, params.next, TokenRParen);
    Ok(params.value, rp.next)
  }

  /** parseReturn: RETURN and one expression. */
  function ParseReturn(toks: seq<Token>, pos: nat): (r: Parsed<Node>)
    requires pos <= |toks|
    decreases |toks| - pos, 4
    ensures r.Ok? ==> pos < r.next <= |toks| && r.value.ReturnNode? && LeftChain(r.value.result)
    ensures r.Ok? ==> Kind(toks, pos) == TokenReturn
    ensures r.Ok? && Plain(toks) ==> Uninterpolated(r.value)
  {
    var kw :- Consume(toks, pos, TokenReturn);
    var e :- ParseExpression(toks, kw.next);
    Ok(ReturnNode(e.value), e.next)
  }

  /** The `, expression` repetitions of an argument list. */
  function ParseMoreArgs(toks: seq<Token>, pos: nat): (r: Parsed<seq<Node>>)
    requires pos <= |toks|
    decreases |toks| - pos, 0
    ensures r.Ok? ==> pos <= r.next <= |toks| && Kind(toks, r.next) != TokenComma
    ensures r.Ok? ==> (r.value == [] <==> Kind(toks, pos) != TokenComma)
    ensures r.Ok? && Plain(toks) ==> AllUninterpolated(r.value)
  {
    if Kind(toks, pos) != TokenComma then Ok([], pos)
    else
      var e :- ParseExpression(toks, pos + 1);
      var rest :- ParseMoreArgs(toks, e.next);
      Ok([e.value] + rest.value, rest.next)
  }

  /** The argument list between the parentheses: empty when RPAREN
      follows, otherwise an expression and `, expression` repetitions. */
  function ParseArgs(toks: seq<Token>, pos: nat): (r: Parsed<seq<Node>>)
    requires pos <= |toks|
    decreases |toks| - pos, 4
    ensures r.Ok? ==> pos <= r.next <= |toks|
    ensures r.Ok? ==> (r.value == [] <==> Kind(toks, pos) == TokenRParen) && (r.value == [] ==> r.next == pos)
    ensures r.Ok? && Plain(toks) ==> AllUninterpolated(r.value)
  {
    if Kind(toks, pos) == TokenRParen then Ok([], pos)
    else
      var first :- ParseExpression(toks, pos);
      var rest :- ParseMoreArgs(toks, first.next);
      Ok([first.value] + rest.value, rest.next)
  }

  /** parseFunctionCall: name `(` arguments `)`. */
  function ParseFunctionCall(toks: seq<Token>, pos: nat): (r: Parsed<Node>)
    requires pos <= |toks|
    decreases |toks| - pos, 0
    ensures r.Ok? ==> pos < r.next <= |toks| && r.value.FunctionCallNode?
    ensures r.Ok? ==> r.value.callee == toks[pos].value
    ensures r.Ok? ==> Kind(toks, pos + 1) == TokenLParen && Kind(toks, r.next - 1) == TokenRParen
    ensures r.Ok? && Plain(toks) ==> Uninterpolated(r.value)
  {
    var name :- Consume(toks, pos, TokenIdentifier);
    var lp :- Consume(toks, name.next, TokenLParen);
    var args :- ParseArgs(toks, lp.next);
    var rp :- Consume(toks, args.next, TokenRParen);
    Ok(FunctionCallNode(name.value.value, args.value), rp.next)
  }

  /** parseExpression: a term, then any number of operator-term pairs, all
      at one precedence level. */
  function ParseExpression(toks: seq<Token>, pos: nat): (r: Parsed<Node>)
    requires pos <= |toks|
    decreases |toks| - pos, 3
    ensures r.Ok? ==> pos < r.next <= |toks|
    ensures r.Ok? ==> LeftChain(r.value) && !IsOperator(Kind(toks, r.next))
    ensures r.Ok? && Plain(toks) ==> Uninterpolated(r.value)
  {
    var t :- ParseTerm(toks, pos);
    ParseOperators(toks, t.next, t.value)
  }

  /** The loop of parseExpression, with `left` the chain built so far. */
  function ParseOperators(toks: seq<Token>, pos: nat, left: Node): (r: Parsed<Node>)
    requires pos <= |toks|
    decreases |toks| - pos, 2
    ensures r.Ok? ==> pos <= r.next <= |toks|
    ensures r.Ok? && LeftChain(left) ==> LeftChain(r.value)
    ensures r.Ok? ==> !IsOperator(Kind(toks, r.next))
    ensures r.Ok? && Plain(toks) && Uninterpolated(left) ==> Uninterpolated(r.value)
  {
    if !IsOperator(Kind(toks, pos)) then Ok(left, pos)
    else
      var op := toks[pos].kind;
      var right :- ParseTerm(toks, pos + 1);
      ParseOperators(toks, right.next, BinaryOpNode(left, op, right.value))
  }

  /** parseTerm: a call, a variable, a number (as an AssignNode with an
      empty name, Atoi's error ignored) or a string literal. */
  function ParseTerm(toks: seq<Token>, pos: nat): (r: Parsed<Node>)
    requires pos <= |toks|
    decreases |toks| - pos, 1
    ensures r.Ok? ==> pos < r.next <= |toks| && IsTerm(r.value)
    ensures Kind(toks, pos) == TokenIdentifier && !NextIs(toks, pos, TokenLParen)
            ==> r == Ok(VariableNode(toks[pos].value), pos + 1)
    ensures Kind(toks, pos) == TokenString ==> r == Ok(StringLiteralNode(toks[pos].value), pos + 1)
    ensures Kind(toks, pos) !in {TokenIdentifier, TokenNumber, TokenString}
            ==> r == Abort(UnexpectedTerm(CurrentToken(toks, pos).value))
    ensures r.Ok? && Plain(toks) ==> Uninterpolated(r.value)
  {
    var k := Kind(toks, pos);
    if k == TokenIdentifier then
      if NextIs(toks, pos, TokenLParen) then ParseFunctionCall(toks, pos)
      else Ok(VariableNode(toks[pos].value), pos + 1)
    else if k == TokenNumber then
      Ok(AssignNode([], Constant(LitInt(Atoi(toks[pos].value).value))), pos + 1)
    else if k == TokenString then
      Ok(StringLiteralNode(toks[pos].value), pos + 1)
    else Abort(UnexpectedTerm(CurrentToken(toks, pos).value))
  }

  /** The loop of Parse: statements up to EOF; a token no statement starts
      with is skipped. */
  function ParseTop(toks: seq<Token>, pos: nat): (r: Parsed<seq<Node>>)
    requires pos <= |toks|
    decreases |toks| - pos, 7
    ensures r.Ok? ==> pos <= r.next <= |toks| && Kind(toks, r.next) == TokenEOF
    ensures r.Ok? && Plain(toks) ==> AllUninterpolated(r.value)
  {
    if Kind(toks, pos) == TokenEOF then Ok([], pos)
    else
      match ParseStatement(toks, pos)
      case Abort(e) => Abort(e)
      case Diverge => Diverge
      case Ok(None, _) => ParseTop(toks, pos + 1)
      case Ok(Some(n), p) =>
        var rest :- ParseTop(toks, p);
        Ok([n] + rest.value, rest.next)
  }

  /** Parse: the whole token list from the start. */
  function Parse(toks: seq<Token>): Parsed<seq<Node>>
  {
    ParseTop(toks, 0)
  }
}
