/** What the `Evaluate` methods of the AST nodes in internal/parser/parser.go
    compute, written as functions. Go passes one map to every node, and the
    node writes into it; here a node gets the map as it stands and returns
    the map as it leaves it, together with its value and the lines it
    printed. Calls can recurse without bound, so evaluation carries fuel:
    each call of a user function spends one unit, and running out yields
    `OutOfFuel`. */
module Semantics {
  import opened Text
  import opened Lexer
  import opened Ast
  import Placeholders

  /** The outcome of evaluating a node: its value, the variable map after
      it, and the lines it printed, in order. */
  datatype Outcome = Done(value: Value, env: Env, out: seq<Bytes>) | OutOfFuel

  /** The outcome of binding the arguments of a call: the caller's map
      after the arguments ran, the callee's map, and what they printed. */
  datatype Binding = Bound(env: Env, local: Env, out: seq<Bytes>) | BindOutOfFuel

  /** What a variable reads as: its value, or nil when it is unset. */
  function Lookup(env: Env, name: Bytes): Value
  {
    if name in env then env[name] else VNil
  }

  /** The arithmetic operators of BinaryOpNode on two ints. */
  predicate BothInts(l: Value, r: Value)
  {
    l.VInt? && r.VInt?
  }

  /** BinaryOpNode's switch on the operator, once both operands are known. */
  function BinOp(op: TokenType, l: Value, r: Value): (v: Value)
    ensures (op == TokenPlus || op == TokenNumPlus) && BothInts(l, r) ==> v == VInt(Wrap64(l.i + r.i))
    ensures op == TokenMult && BothInts(l, r) ==> v == VInt(Wrap64(l.i * r.i))
    ensures op == TokenConcat ==> v == VStr(Format(l) + Format(r))
    ensures op != TokenConcat && !(IsArith(op) && BothInts(l, r)) ==> v == VNil
  {
    if op == TokenPlus || op == TokenNumPlus then
      if BothInts(l, r) then VInt(Wrap64(l.i + r.i)) else VNil
    else if op == TokenConcat then VStr(Format(l) + Format(r))
    else if op == TokenMult && BothInts(l, r) then VInt(Wrap64(l.i * r.i))
    else VNil
  }

  predicate IsArith(op: TokenType)
  {
    op == TokenPlus || op == TokenNumPlus || op == TokenMult
  }

  /** PrintNode's interpolation: for each recorded name that is set, every
      `💱{name}` in the text is replaced by the value's `%v` text. The names
      are taken in the order of the sequence; Go walks a map here. */
  function Interpolate(text: Bytes, names: seq<Bytes>, env: Env): Bytes
    decreases |names|
  {
    if names == [] then text
    else
      var name := names[0];
      var t := if name in env then Placeholders.ReplaceAll(text, Placeholders.Placeholder(name), Format(env[name])) else text;
      Interpolate(t, names[1..], env)
  }

  /** The nodes of a try body that make TryCatchNode run its catch body. */
  predicate HasNestedTry(tryBody: seq<Node>)
  {
    exists i :: 0 <= i < |tryBody| && tryBody[i].TryCatchNode?
  }

  /** Node.Evaluate. */
  function Evaluate(n: Node, env: Env, fuel: nat): Outcome
    decreases fuel, NodeSize(n), 0
  {
    match n
    case PrintNode(text, interpolated, variables) =>
      var line := if interpolated then Interpolate(text, variables, env) else text;
      Done(VStr(line), env, [line])
    case AssignNode(name, FromNode(m)) =>
      var o := Evaluate(m, env, fuel);
      if o.OutOfFuel? then OutOfFuel else Done(VNil, o.env[name := o.value], o.out)
    case AssignNode(name, Constant(lit)) =>
      Done(VNil, env[name := LitValue(lit)], [])
    case EqualNode(name, lit) =>
      Done(VBool(name in env && env[name] == LitValue(lit)), env, [])
    case BinaryOpNode(l, op, r) =>
      var lo := Evaluate(l, env, fuel);
      if lo.OutOfFuel? then OutOfFuel
      else
        var ro := Evaluate(r, lo.env, fuel);
        if ro.OutOfFuel? then OutOfFuel
        else Done(BinOp(op, lo.value, ro.value), ro.env, lo.out + ro.out)
    case VariableNode(name) =>
      Done(Lookup(env, name), env, [])
    case FunctionNode(def) =>
      Done(VNil, env[def.name := VFunc(def)], [])
    case ReturnNode(m) =>
      Evaluate(m, env, fuel)
    case FunctionCallNode(callee, args) =>
      if callee !in env || !env[callee].VFunc? then Done(VNil, env, [])
      else if fuel == 0 then OutOfFuel
      else
        var def := env[callee].f;
        var b := BindArgs(args, def.params, env, env, fuel);
        if b.BindOutOfFuel? then OutOfFuel
        else
          var o := RunBody(def.body, b.local, VNil, fuel - 1);
          if o.OutOfFuel? then OutOfFuel else Done(o.value, b.env, b.out + o.out)
    case MainNode(body) =>
      var o := EvalAll(body, env, fuel);
      if o.OutOfFuel? then OutOfFuel else Done(VNil, o.env, o.out)
    case TryCatchNode(tryBody, catchBody) =>
      if HasNestedTry(tryBody) && catchBody != [] then Evaluate(catchBody[0], env, fuel)
      else Done(VNil, env, [])
    case StringLiteralNode(s) =>
      Done(VStr(s), env, [])
  }

  /** The arguments of a call, in order, each evaluated against the
      caller's map and stored in the callee's map under its parameter; an
      argument with no parameter is not evaluated at all. */
  function BindArgs(args: seq<Node>, params: seq<Bytes>, env: Env, local: Env, fuel: nat): Binding
    decreases fuel, SeqSize(args), 1
  {
    if args == [] || params == [] then Bound(env, local, [])
    else
      var o := Evaluate(args[0], env, fuel);
      if o.OutOfFuel? then BindOutOfFuel
      else
        var rest := BindArgs(args[1..], params[1..], o.env, local[params[0] := o.value], fuel);
        if rest.BindOutOfFuel? then BindOutOfFuel
        else Bound(rest.env, rest.local, o.out + rest.out)
  }

  /** A function body run on the callee's map: the first top-level
      ReturnNode gives the result and ends the body; otherwise the result
      is the last statement's value (`last` so far), nil for an empty body. */
  function RunBody(body: seq<Node>, local: Env, last: Value, fuel: nat): Outcome
    decreases fuel, SeqSize(body), 1
  {
    if body == [] then Done(last, local, [])
    else if body[0].ReturnNode? then Evaluate(body[0].result, local, fuel)
    else
      var o := Evaluate(body[0], local, fuel);
      if o.OutOfFuel? then OutOfFuel
      else
        var rest := RunBody(body[1..], o.env, o.value, fuel);
        if rest.OutOfFuel? then OutOfFuel else Done(rest.value, rest.env, o.out + rest.out)
  }

  /** MainNode's loop: every node in order on one map, values dropped. */
  function EvalAll(body: seq<Node>, env: Env, fuel: nat): Outcome
    decreases fuel, SeqSize(body), 1
  {
    if body == [] then Done(VNil, env, [])
    else
      var o := Evaluate(body[0], env, fuel);
      if o.OutOfFuel? then OutOfFuel
      else
        var rest := EvalAll(body[1..], o.env, fuel);
        if rest.OutOfFuel? then OutOfFuel else Done(VNil, rest.env, o.out + rest.out)
  }
}
