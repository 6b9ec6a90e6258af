/** The `Evaluate` methods of the AST nodes in internal/parser/parser.go as
    they run in Go: one variable map, updated in place, passed to every
    node, and standard output, to which prints append. Each method is proved
    to compute what the functions of module Semantics describe. */
module Evaluator {
  import opened Text
  import opened Lexer
  import opened Ast
  import opened Semantics
  import Placeholders

  /** A node of a list is no larger than the list. */
  lemma {:induction false} ElementSize(ns: seq<Node>, k: nat)
    requires k < |ns|
    ensures NodeSize(ns[k]) <= SeqSize(ns)
    decreases k
  {
    if k > 0 {
      ElementSize(ns[1..], k - 1);
    }
  }

  /** An outcome with `p` printed before it. */
  function Prefixed(p: seq<Bytes>, o: Outcome): Outcome
  {
    if o.OutOfFuel? then OutOfFuel else Done(o.value, o.env, p + o.out)
  }

  lemma PrefixedTwice(p: seq<Bytes>, q: seq<Bytes>, o: Outcome)
    ensures Prefixed(p, Prefixed(q, o)) == Prefixed(p + q, o)
  {
    if o.Done? {
      assert p + (q + o.out) == (p + q) + o.out;
    }
  }

  /** A binding with `p` printed before it. */
  function PrefixedBinding(p: seq<Bytes>, b: Binding): Binding
  {
    if b.BindOutOfFuel? then BindOutOfFuel else Bound(b.env, b.local, p + b.out)
  }

  lemma PrefixedBindingTwice(p: seq<Bytes>, q: seq<Bytes>, b: Binding)
    ensures PrefixedBinding(p, PrefixedBinding(q, b)) == PrefixedBinding(p + q, b)
  {
    if b.Bound? {
      assert p + (q + b.out) == (p + q) + b.out;
    }
  }

  /** MainNode's loop invariant carried past node k. */
  lemma AllAdvance(body: seq<Node>, k: nat, env: Env, fuel: nat, printed: seq<Bytes>, whole: Outcome)
    requires k < |body|
    requires whole == Prefixed(printed, EvalAll(body[k..], env, fuel))
    ensures NodeSize(body[k]) <= SeqSize(body)
    ensures Evaluate(body[k], env, fuel).OutOfFuel? ==> whole.OutOfFuel?
    ensures var o := Evaluate(body[k], env, fuel);
            o.Done? ==> whole == Prefixed(printed + o.out, EvalAll(body[k + 1..], o.env, fuel))
  {
    ElementSize(body, k);
    assert body[k..][0] == body[k] && body[k..][1..] == body[k + 1..];
    var o := Evaluate(body[k], env, fuel);
    if o.Done? {
      PrefixedTwice(printed, o.out, EvalAll(body[k + 1..], o.env, fuel));
    }
  }

  /** The argument loop's invariant carried past argument i. */
  lemma BindAdvance(args: seq<Node>, params: seq<Bytes>, i: nat, env: Env, local: Env, fuel: nat,
                    printed: seq<Bytes>, whole: Binding)
    requires i < |args| && i < |params|
    requires whole == PrefixedBinding(printed, BindArgs(args[i..], params[i..], env, local, fuel))
    ensures NodeSize(args[i]) <= SeqSize(args)
    ensures Evaluate(args[i], env, fuel).OutOfFuel? ==> whole.BindOutOfFuel?
    ensures var o := Evaluate(args[i], env, fuel);
            o.Done? ==> whole == PrefixedBinding(printed + o.out, BindArgs(args[i + 1..], params[i + 1..], o.env, local[params[i] := o.value], fuel))
  {
    ElementSize(args, i);
    assert args[i..][0] == args[i] && args[i..][1..] == args[i + 1..];
    assert params[i..][0] == params[i] && params[i..][1..] == params[i + 1..];
    var o := Evaluate(args[i], env, fuel);
    if o.Done? {
      PrefixedBindingTwice(printed, o.out, BindArgs(args[i + 1..], params[i + 1..], o.env, local[params[i] := o.value], fuel));
    }
  }

  /** The body loop's invariant carried past statement k, which is not a
      ReturnNode. */
  lemma BodyAdvance(body: seq<Node>, k: nat, env: Env, last: Value, fuel: nat, printed: seq<Bytes>, whole: Outcome)
    requires k < |body| && !body[k].ReturnNode?
    requires whole == Prefixed(printed, RunBody(body[k..], env, last, fuel))
    ensures NodeSize(body[k]) <= SeqSize(body)
    ensures Evaluate(body[k], env, fuel).OutOfFuel? ==> whole.OutOfFuel?
    ensures var o := Evaluate(body[k], env, fuel);
            o.Done? ==> whole == Prefixed(printed + o.out, RunBody(body[k + 1..], o.env, o.value, fuel))
  {
    ElementSize(body, k);
    assert body[k..][0] == body[k] && body[k..][1..] == body[k + 1..];
    var o := Evaluate(body[k], env, fuel);
    if o.Done? {
      PrefixedTwice(printed, o.out, RunBody(body[k + 1..], o.env, o.value, fuel));
    }
  }

  /** The body loop reaching a ReturnNode: its value is the body's. */
  lemma BodyReturn(body: seq<Node>, k: nat, env: Env, last: Value, fuel: nat, printed: seq<Bytes>, whole: Outcome)
    requires k < |body| && body[k].ReturnNode?
    requires whole == Prefixed(printed, RunBody(body[k..], env, last, fuel))
    ensures NodeSize(body[k].result) < SeqSize(body) + 1
    ensures whole == Prefixed(printed, Evaluate(body[k].result, env, fuel))
  {
    ElementSize(body, k);
    assert body[k..][0] == body[k];
  }

  class Machine {
    /** The map every `Evaluate` receives. */
    var vars: Env
    /** Standard output so far, one entry per line. */
    var out: seq<Bytes>

    constructor (vars: Env)
      ensures this.vars == vars && out == []
    {
      this.vars := vars;
      out := [];
    }

    /** Node.Evaluate(vars). `ok` is false when function calls went deeper
        than `fuel`. */
    method Eval(n: Node, fuel: nat) returns (v: Value, ok: bool)
      modifies this
      decreases fuel, NodeSize(n), 3
      ensures var o := Evaluate(n, old(vars), fuel);
              ok == o.Done? && (ok ==> v == o.value && vars == o.env && out == old(out) + o.out)
    {
      match n
      case PrintNode(text, interpolated, variables) =>
        var line := text;
        if interpolated {
          line := Interpolation(text, variables);
        }
        out := out + [line];
        return VStr(line), true;
      case AssignNode(name, FromNode(m)) =>
        var x, good := Eval(m, fuel);
        if !good {
          return VNil, false;
        }
        vars := vars[name := x];
        return VNil, true;
      case AssignNode(name, Constant(lit)) =>
        vars := vars[name := LitValue(lit)];
        return VNil, true;
      case EqualNode(name, lit) =>
        return VBool(name in vars && vars[name] == LitValue(lit)), true;
      case BinaryOpNode(l, op, r) =>
        v, ok := EvalBinary(l, op, r, fuel);
      case VariableNode(name) =>
        return Lookup(vars, name), true;
      case FunctionNode(def) =>
        vars := vars[def.name := VFunc(def)];
        return VNil, true;
      case ReturnNode(m) =>
        v, ok := Eval(m, fuel);
      case FunctionCallNode(callee, args) =>
        v, ok := EvalCall(callee, args, fuel);
      case MainNode(body) =>
        ok := EvalMain(body, fuel);
        v := VNil;
      case TryCatchNode(tryBody, catchBody) =>
        v, ok := EvalTry(tryBody, catchBody, fuel);
      case StringLiteralNode(s) =>
        return VStr(s), true;
    }

    /** PrintNode's substitution loop: each recorded name that is set has
        its placeholders replaced by the value's text. */
    method Interpolation(text: Bytes, names: seq<Bytes>) returns (line: Bytes)
      ensures line == Interpolate(text, names, vars)
    {
      line := text;
      var k := 0;
      while k < |names|
        invariant k <= |names|
        invariant Interpolate(text, names, vars) == Interpolate(line, names[k..], vars)
      {
        assert names[k..][1..] == names[k + 1..];
        if names[k] in vars {
          line := Placeholders.ReplaceAll(line, Placeholders.Placeholder(names[k]), Format(vars[names[k]]));
        }
        k := k + 1;
      }
    }

    /** BinaryOpNode.Evaluate: the left operand, then the right one, on the
        same map. */
    method EvalBinary(l: Node, op: TokenType, r: Node, fuel: nat) returns (v: Value, ok: bool)
      modifies this
      decreases fuel, NodeSize(BinaryOpNode(l, op, r)), 2
      ensures var o := Evaluate(BinaryOpNode(l, op, r), old(vars), fuel);
              ok == o.Done? && (ok ==> v == o.value && vars == o.env && out == old(out) + o.out)
    {
      var a, good := Eval(l, fuel);
      if !good {
        return VNil, false;
      }
      ghost var middle := out;
      var b, good' := Eval(r, fuel);
      if !good' {
        return VNil, false;
      }
      assert out == old(out) + (middle[|old(out)|..] + out[|middle|..]);
      return BinOp(op, a, b), true;
    }

    /** FunctionCallNode.Evaluate: the callee's map starts as a copy of the
        caller's; arguments run on the caller's map; the body runs on the
        copy, and the caller's map is back in place afterwards. */
    method EvalCall(callee: Bytes, args: seq<Node>, fuel: nat) returns (v: Value, ok: bool)
      modifies this
      decreases fuel, SeqSize(args) + 1, 2
      ensures var o := Evaluate(FunctionCallNode(callee, args), old(vars), fuel);
              ok == o.Done? && (ok ==> v == o.value && vars == o.env && out == old(out) + o.out)
    {
      if callee !in vars || !vars[callee].VFunc? {
        return VNil, true;
      }
      if fuel == 0 {
        return VNil, false;
      }
      var def := vars[callee].f;
      var local, good := BindAll(args, def.params, fuel);
      if !good {
        return VNil, false;
      }
      ghost var bound := out;
      var caller := vars;
      vars := local;
      v, ok := EvalBody(def.body, fuel - 1);
      assert ok ==> out == old(out) + (bound[|old(out)|..] + out[|bound|..]);
      vars := caller;
    }

    /** The argument loop of FunctionCallNode.Evaluate: the callee's map
        starts as a copy of the caller's, and each argument that has a
        parameter is evaluated on the caller's map and stored under it. */
    method BindAll(args: seq<Node>, params: seq<Bytes>, fuel: nat) returns (local: Env, good: bool)
      modifies this
      decreases fuel, SeqSize(args) + 1, 1
      ensures var b := BindArgs(args, params, old(vars), old(vars), fuel);
              good == b.Bound? && (good ==> vars == b.env && local == b.local && out == old(out) + b.out)
    {
      local := vars;
      ghost var whole := BindArgs(args, params, vars, vars, fuel);
      ghost var printed: seq<Bytes> := [];
      var i := 0;
      while i < |args| && i < |params|
        invariant i <= |args| && i <= |params|
        invariant out == old(out) + printed
        invariant whole == PrefixedBinding(printed, BindArgs(args[i..], params[i..], vars, local, fuel))
      {
        local, good, printed := BindOne(args, params, i, fuel, local, old(out), printed, whole);
        if !good {
          return;
        }
        i := i + 1;
      }
      assert args[i..] == [] || params[i..] == [];
      good := true;
    }

    /** One turn of the argument loop: argument i, evaluated on the
        caller's map, is stored in the callee's map under parameter i. */
    method BindOne(args: seq<Node>, params: seq<Bytes>, i: nat, fuel: nat, local: Env,
                   ghost start: seq<Bytes>, ghost printed: seq<Bytes>, ghost whole: Binding)
      returns (local': Env, good: bool, ghost printed': seq<Bytes>)
      modifies this
      requires i < |args| && i < |params|
      requires out == start + printed
      requires whole == PrefixedBinding(printed, BindArgs(args[i..], params[i..], vars, local, fuel))
      decreases fuel, SeqSize(args) + 1, 0
      ensures !good ==> whole.BindOutOfFuel?
      ensures good ==> out == start + printed'
                       && whole == PrefixedBinding(printed', BindArgs(args[i + 1..], params[i + 1..], vars, local', fuel))
    {
      BindAdvance(args, params, i, vars, local, fuel, printed, whole);
      ghost var o := Evaluate(args[i], vars, fuel);
      var x;
      x, good := Eval(args[i], fuel);
      local' := local[params[i] := x];
      printed' := printed + (if good then o.out else []);
    }

    /** The body loop of FunctionCallNode.Evaluate: the first top-level
        ReturnNode ends it with its value; otherwise the value of the last
        statement, nil for an empty body. */
    method EvalBody(body: seq<Node>, fuel: nat) returns (v: Value, ok: bool)
      modifies this
      decreases fuel, SeqSize(body) + 1, 2
      ensures var o := RunBody(body, old(vars), VNil, fuel);
              ok == o.Done? && (ok ==> v == o.value && vars == o.env && out == old(out) + o.out)
    {
      var last := VNil;
      ghost var whole := RunBody(body, vars, VNil, fuel);
      ghost var printed: seq<Bytes> := [];
      var k := 0;
      while k < |body| && !body[k].ReturnNode?
        invariant k <= |body|
        invariant out == old(out) + printed
        invariant whole == Prefixed(printed, RunBody(body[k..], vars, last, fuel))
      {
        var good;
        last, good, printed := StatementOne(body, k, fuel, last, old(out), printed, whole);
        if !good {
          return VNil, false;
        }
        k := k + 1;
      }
      if k < |body| {
        v, ok := ReturnOne(body, k, fuel, last, old(out), printed, whole);
      } else {
        assert body[k..] == [];
        v, ok := last, true;
      }
    }

    /** The end of the body loop at a top-level return: its expression
        gives the call's value. */
    method ReturnOne(body: seq<Node>, k: nat, fuel: nat, last: Value,
                     ghost start: seq<Bytes>, ghost printed: seq<Bytes>, ghost whole: Outcome)
      returns (v: Value, ok: bool)
      modifies this
      requires k < |body| && body[k].ReturnNode?
      requires out == start + printed
      requires whole == Prefixed(printed, RunBody(body[k..], vars, last, fuel))
      decreases fuel, SeqSize(body) + 1, 1
      ensures ok == whole.Done? && (ok ==> v == whole.value && vars == whole.env && out == start + whole.out)
    {
      BodyReturn(body, k, vars, last, fuel, printed, whole);
      ghost var before := out;
      v, ok := Eval(body[k].result, fuel);
      assert ok ==> out == start + (printed + out[|before|..]);
    }

    /** One turn of the body loop, for a statement that is not a return. */
    method StatementOne(body: seq<Node>, k: nat, fuel: nat, last: Value,
                        ghost start: seq<Bytes>, ghost printed: seq<Bytes>, ghost whole: Outcome)
      returns (last': Value, good: bool, ghost printed': seq<Bytes>)
      modifies this
      requires k < |body| && !body[k].ReturnNode?
      requires out == start + printed
      requires whole == Prefixed(printed, RunBody(body[k..], vars, last, fuel))
      decreases fuel, SeqSize(body) + 1, 1
      ensures !good ==> whole.OutOfFuel?
      ensures good ==> out == start + printed'
                       && whole == Prefixed(printed', RunBody(body[k + 1..], vars, last', fuel))
    {
      BodyAdvance(body, k, vars, last, fuel, printed, whole);
      ghost var o := Evaluate(body[k], vars, fuel);
      last', good := Eval(body[k], fuel);
      printed' := printed + (if good then o.out else []);
    }

    /** MainNode.Evaluate: every node in order, values dropped. */
    method EvalMain(body: seq<Node>, fuel: nat) returns (ok: bool)
      modifies this
      decreases fuel, SeqSize(body) + 1, 2
      ensures var o := EvalAll(body, old(vars), fuel);
              ok == o.Done? && (ok ==> vars == o.env && out == old(out) + o.out)
    {
      ghost var whole := EvalAll(body, vars, fuel);
      ghost var printed: seq<Bytes> := [];
      var k := 0;
      while k < |body|
        invariant k <= |body|
        invariant out == old(out) + printed
        invariant whole == Prefixed(printed, EvalAll(body[k..], vars, fuel))
      {
        var good;
        good, printed := NodeOne(body, k, fuel, old(out), printed, whole);
        if !good {
          return false;
        }
        k := k + 1;
      }
      assert body[k..] == [];
      return true;
    }

    /** One turn of MainNode's loop. */
    method NodeOne(body: seq<Node>, k: nat, fuel: nat,
                   ghost start: seq<Bytes>, ghost printed: seq<Bytes>, ghost whole: Outcome)
      returns (good: bool, ghost printed': seq<Bytes>)
      modifies this
      requires k < |body|
      requires out == start + printed
      requires whole == Prefixed(printed, EvalAll(body[k..], vars, fuel))
      decreases fuel, SeqSize(body) + 1, 1
      ensures !good ==> whole.OutOfFuel?
      ensures good ==> out == start + printed'
                       && whole == Prefixed(printed', EvalAll(body[k + 1..], vars, fuel))
    {
      AllAdvance(body, k, vars, fuel, printed, whole);
      ghost var o := Evaluate(body[k], vars, fuel);
      var _, ok := Eval(body[k], fuel);
      good := ok;
      printed' := printed + (if good then o.out else []);
    }

    /** TryCatchNode.Evaluate: the try body is only scanned for a nested
        TryCatchNode; the first such node runs the first catch node. */
    method EvalTry(tryBody: seq<Node>, catchBody: seq<Node>, fuel: nat) returns (v: Value, ok: bool)
      modifies this
      decreases fuel, SeqSize(tryBody) + SeqSize(catchBody) + 1, 2
      ensures var o := Evaluate(TryCatchNode(tryBody, catchBody), old(vars), fuel);
              ok == o.Done? && (ok ==> v == o.value && vars == o.env && out == old(out) + o.out)
    {
      var i := 0;
      while i < |tryBody|
        invariant i <= |tryBody|
        invariant catchBody != [] ==> forall j :: 0 <= j < i ==> !tryBody[j].TryCatchNode?
      {
        if tryBody[i].TryCatchNode? && catchBody != [] {
          ElementSize(catchBody, 0);
          v, ok := Eval(catchBody[0], fuel);
          return;
        }
        i := i + 1;
      }
      return VNil, true;
    }
  }
}
