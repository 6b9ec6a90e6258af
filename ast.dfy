/** The syntax tree the parser builds (internal/parser/parser.go) and the
    run-time values its evaluators produce. Go keeps nodes behind the `Node`
    interface and values as `interface{}`; both become closed datatypes here. */
module Ast {
  import opened Text
  import opened Lexer

  /** A run-time value: the dynamic types that occur in the variable map. */
  datatype Value = VInt(i: int) | VStr(s: Bytes) | VBool(b: bool) | VFunc(f: FunctionDef) | VNil

  /** The constant an `EqualNode` compares with or an `AssignNode` stores. */
  datatype Literal = LitInt(n: int) | LitStr(s: Bytes)

  /** An `AssignNode` holds either a node to evaluate or a plain constant. */
  datatype AssignValue = FromNode(node: Node) | Constant(lit: Literal)

  /** The payload of a `FunctionNode`; a function value carries it. */
  datatype FunctionDef = FunctionDef(name: Bytes, params: seq<Bytes>, body: seq<Node>)

  datatype Node =
    | PrintNode(text: Bytes, interpolated: bool, variables: seq<Bytes>)
    | AssignNode(name: Bytes, value: AssignValue)
    | EqualNode(name: Bytes, lit: Literal)
    | BinaryOpNode(left: Node, op: TokenType, right: Node)
    | VariableNode(name: Bytes)
    | FunctionNode(def: FunctionDef)
    | ReturnNode(result: Node)
    | FunctionCallNode(callee: Bytes, args: seq<Node>)
    | MainNode(body: seq<Node>)
    | TryCatchNode(tryBody: seq<Node>, catchBody: seq<Node>)
    | StringLiteralNode(literal: Bytes)

  /** The variable map shared by the evaluators. */
  type Env = map<Bytes, Value>

  function LitValue(l: Literal): Value
  {
    match l
    case LitInt(n) => VInt(n)
    case LitStr(s) => VStr(s)
  }

  /** The number of nodes an evaluation may visit without making a call:
      function bodies held in a `FunctionNode` are not counted, since
      defining a function does not run it. */
  function NodeSize(n: Node): (k: nat)
    ensures k >= 1
  {
    match n
    case AssignNode(_, FromNode(m)) => 1 + NodeSize(m)
    case BinaryOpNode(l, _, r) => 1 + NodeSize(l) + NodeSize(r)
    case ReturnNode(m) => 1 + NodeSize(m)
    case FunctionCallNode(_, args) => 1 + SeqSize(args)
    case MainNode(body) => 1 + SeqSize(body)
    case TryCatchNode(t, c) => 1 + SeqSize(t) + SeqSize(c)
    case _ => 1
  }

  function SeqSize(ns: seq<Node>): (k: nat)
    ensures ns != [] ==> k >= NodeSize(ns[0])
  {
    if ns == [] then 0 else NodeSize(ns[0]) + SeqSize(ns[1..])
  }

  /** The text a function value is shown as. fmt prints a *FunctionNode as
      the struct behind the pointer, including the addresses of its body
      nodes; that rendering is not modelled, and every function value is
      shown as this fixed text followed by its name. */
  const FunctionText: Bytes := "&{"

  /** fmt's `%v` rendering of a value. */
  function Format(v: Value): Bytes
  {
    match v
    case VInt(n) => Decimal(n)
    case VStr(s) => s
    case VBool(b) => if b then "true" else "false"
    case VFunc(f) => FunctionText + f.name + "}"
    case VNil => "<nil>"
  }
}
