/** What the node evaluators of internal/parser/parser.go guarantee, proved
    about the Semantics functions. */
module SemanticsProps {
  import opened Text
  import opened Lexer
  import opened Ast
  import opened Semantics
  import Placeholders

  // Fuel only bounds the call depth: an evaluation that finishes with some
  // fuel finishes the same way with more.

  lemma {:induction false} EvaluateFuel(n: Node, env: Env, f: nat, g: nat)
    requires f <= g && Evaluate(n, env, f).Done?
    ensures Evaluate(n, env, g) == Evaluate(n, env, f)
    decreases f, NodeSize(n), 0
  {
    match n
    case AssignNode(name, FromNode(m)) =>
      EvaluateFuel(m, env, f, g);
    case BinaryOpNode(l, op, r) =>
      EvaluateFuel(l, env, f, g);
      EvaluateFuel(r, Evaluate(l, env, f).env, f, g);
    case ReturnNode(m) =>
      EvaluateFuel(m, env, f, g);
    case FunctionCallNode(callee, args) =>
      if callee in env && env[callee].VFunc? {
        var def := env[callee].f;
        BindArgsFuel(args, def.params, env, env, f, g);
        RunBodyFuel(def.body, BindArgs(args, def.params, env, env, f).local, VNil, f - 1, g - 1);
      }
    case MainNode(body) =>
      EvalAllFuel(body, env, f, g);
    case TryCatchNode(tryBody, catchBody) =>
      if HasNestedTry(tryBody) && catchBody != [] {
        EvaluateFuel(catchBody[0], env, f, g);
      }
    case _ =>
  }

  lemma {:induction false} BindArgsFuel(args: seq<Node>, params: seq<Bytes>, env: Env, local: Env, f: nat, g: nat)
    requires f <= g && BindArgs(args, params, env, local, f).Bound?
    ensures BindArgs(args, params, env, local, g) == BindArgs(args, params, env, local, f)
    decreases f, SeqSize(args), 1
  {
    if args != [] && params != [] {
      var o := Evaluate(args[0], env, f);
      EvaluateFuel(args[0], env, f, g);
      BindArgsFuel(args[1..], params[1..], o.env, local[params[0] := o.value], f, g);
    }
  }

  lemma {:induction false} RunBodyFuel(body: seq<Node>, local: Env, last: Value, f: nat, g: nat)
    requires f <= g && RunBody(body, local, last, f).Done?
    ensures RunBody(body, local, last, g) == RunBody(body, local, last, f)
    decreases f, SeqSize(body), 1
  {
    if body != [] {
      if body[0].ReturnNode? {
        EvaluateFuel(body[0].result, local, f, g);
      } else {
        var o := Evaluate(body[0], local, f);
        EvaluateFuel(body[0], local, f, g);
        RunBodyFuel(body[1..], o.env, o.value, f, g);
      }
    }
  }

  lemma {:induction false} EvalAllFuel(body: seq<Node>, env: Env, f: nat, g: nat)
    requires f <= g && EvalAll(body, env, f).Done?
    ensures EvalAll(body, env, g) == EvalAll(body, env, f)
    decreases f, SeqSize(body), 1
  {
    if body != [] {
      var o := Evaluate(body[0], env, f);
      EvaluateFuel(body[0], env, f, g);
      EvalAllFuel(body[1..], o.env, f, g);
    }
  }

  /** A node that never writes the variable map: no assignment and no
      function definition anywhere outside the bodies of called functions. */
  predicate ReadOnly(n: Node)
    decreases n, 1
  {
    match n
    case AssignNode(_, _) => false
    case FunctionNode(_) => false
    case BinaryOpNode(l, _, r) => ReadOnly(l) && ReadOnly(r)
    case ReturnNode(m) => ReadOnly(m)
    case FunctionCallNode(_, args) => AllReadOnly(args)
    case MainNode(body) => AllReadOnly(body)
    case TryCatchNode(_, catchBody) => AllReadOnly(catchBody)
    case _ => true
  }

  predicate AllReadOnly(ns: seq<Node>)
    decreases ns, 0
  {
    forall i :: 0 <= i < |ns| ==> ReadOnly(ns[i])
  }

  /** A read-only node leaves the caller's map as it found it, even when it
      calls functions whose bodies assign: the body runs on a copy. */
  lemma {:induction false} ReadOnlyKeepsEnv(n: Node, env: Env, f: nat)
    requires ReadOnly(n) && Evaluate(n, env, f).Done?
    ensures Evaluate(n, env, f).env == env
    decreases f, NodeSize(n), 0
  {
    match n
    case BinaryOpNode(l, op, r) =>
      ReadOnlyKeepsEnv(l, env, f);
      ReadOnlyKeepsEnv(r, env, f);
    case ReturnNode(m) =>
      ReadOnlyKeepsEnv(m, env, f);
    case FunctionCallNode(callee, args) =>
      if callee in env && env[callee].VFunc? {
        BindKeepsEnv(args, env[callee].f.params, env, env, f);
      }
    case MainNode(body) =>
      EvalAllKeepsEnv(body, env, f);
    case TryCatchNode(tryBody, catchBody) =>
      if HasNestedTry(tryBody) && catchBody != [] {
        ReadOnlyKeepsEnv(catchBody[0], env, f);
      }
    case _ =>
  }

  lemma {:induction false} BindKeepsEnv(args: seq<Node>, params: seq<Bytes>, env: Env, local: Env, f: nat)
    requires AllReadOnly(args) && BindArgs(args, params, env, local, f).Bound?
    ensures BindArgs(args, params, env, local, f).env == env
    decreases f, SeqSize(args), 1
  {
    if args != [] && params != [] {
      var o := Evaluate(args[0], env, f);
      ReadOnlyKeepsEnv(args[0], env, f);
      BindKeepsEnv(args[1..], params[1..], env, local[params[0] := o.value], f);
    }
  }

  lemma {:induction false} EvalAllKeepsEnv(body: seq<Node>, env: Env, f: nat)
    requires AllReadOnly(body) && EvalAll(body, env, f).Done?
    ensures EvalAll(body, env, f).env == env
    decreases f, SeqSize(body), 1
  {
    if body != [] {
      ReadOnlyKeepsEnv(body[0], env, f);
      EvalAllKeepsEnv(body[1..], env, f);
    }
  }

  /** A call of a bound function leaves the caller's map exactly as its
      arguments left it: what the body assigns stays in the callee's copy. */
  lemma CallIsolation(callee: Bytes, args: seq<Node>, env: Env, f: nat)
    requires callee in env && env[callee].VFunc? && Evaluate(FunctionCallNode(callee, args), env, f).Done?
    ensures Evaluate(FunctionCallNode(callee, args), env, f).env == BindArgs(args, env[callee].f.params, env, env, f).env
    ensures AllReadOnly(args) ==> Evaluate(FunctionCallNode(callee, args), env, f).env == env
  {
    if AllReadOnly(args) {
      BindKeepsEnv(args, env[callee].f.params, env, env, f);
    }
  }

  /** A call whose name is unset, or set to something other than a
      function, is nil and changes nothing. */
  lemma UnboundCall(callee: Bytes, args: seq<Node>, env: Env, f: nat)
    requires !(callee in env && env[callee].VFunc?)
    ensures Evaluate(FunctionCallNode(callee, args), env, f) == Done(VNil, env, [])
  {
  }

  function Min(a: nat, b: nat): nat
  {
    if a <= b then a else b
  }

  /** Arguments beyond the parameter list are never evaluated. */
  lemma {:induction false} BindIgnoresExtra(args: seq<Node>, params: seq<Bytes>, env: Env, local: Env, f: nat)
    ensures BindArgs(args, params, env, local, f) == BindArgs(args[..Min(|args|, |params|)], params, env, local, f)
    decreases |args|
  {
    var k := Min(|args|, |params|);
    if args != [] && params != [] {
      var o := Evaluate(args[0], env, f);
      if o.Done? {
        BindIgnoresExtra(args[1..], params[1..], o.env, local[params[0] := o.value], f);
        assert args[..k][1..] == args[1..][..Min(|args| - 1, |params| - 1)];
      }
      assert args[..k][0] == args[0];
    }
  }

  /** A call with more arguments than parameters behaves as the call with
      the extra arguments dropped: no arity check, and no evaluation of the
      surplus (so none of its prints or assignments happen). */
  lemma CallIgnoresExtraArgs(callee: Bytes, args: seq<Node>, env: Env, f: nat)
    requires callee in env && env[callee].VFunc? && |args| > |env[callee].f.params|
    ensures Evaluate(FunctionCallNode(callee, args), env, f)
            == Evaluate(FunctionCallNode(callee, args[..|env[callee].f.params|]), env, f)
  {
    var params := env[callee].f.params;
    BindIgnoresExtra(args, params, env, env, f);
    BindIgnoresExtra(args[..|params|], params, env, env, f);
    assert args[..|params|][..Min(|params|, |params|)] == args[..|params|];
  }

  /** Statements after a top-level return never run. */
  lemma {:induction false} ReturnCuts(body: seq<Node>, suffix: seq<Node>, local: Env, last: Value, f: nat)
    requires exists i :: 0 <= i < |body| && body[i].ReturnNode?
    ensures RunBody(body + suffix, local, last, f) == RunBody(body, local, last, f)
    decreases |body|
  {
    assert (body + suffix)[0] == body[0];
    if !body[0].ReturnNode? {
      var i :| 0 <= i < |body| && body[i].ReturnNode?;
      assert body[1..][i - 1] == body[i];
      assert (body + suffix)[1..] == body[1..] + suffix;
      var o := Evaluate(body[0], local, f);
      if o.Done? {
        ReturnCuts(body[1..], suffix, o.env, o.value, f);
      }
    }
  }

  /** A body without a top-level return runs like a MainNode body: the same
      map afterwards and the same printed lines. */
  lemma {:induction false} BodyLikeMain(body: seq<Node>, local: Env, last: Value, f: nat)
    requires forall i :: 0 <= i < |body| ==> !body[i].ReturnNode?
    ensures RunBody(body, local, last, f).OutOfFuel? <==> EvalAll(body, local, f).OutOfFuel?
    ensures RunBody(body, local, last, f).Done? ==>
              RunBody(body, local, last, f).env == EvalAll(body, local, f).env
              && RunBody(body, local, last, f).out == EvalAll(body, local, f).out
    decreases |body|
  {
    if body != [] {
      var o := Evaluate(body[0], local, f);
      if o.Done? {
        BodyLikeMain(body[1..], o.env, o.value, f);
      }
    }
  }

  /** The result of a body without a top-level return is its last
      statement's value; an empty body gives the value held so far. */
  lemma {:induction false} BodyLastValue(body: seq<Node>, local: Env, last: Value, f: nat)
    requires forall i :: 0 <= i < |body| ==> !body[i].ReturnNode?
    requires |body| > 0 && RunBody(body, local, last, f).Done?
    ensures var before := RunBody(body[..|body| - 1], local, last, f);
            before.Done? && Evaluate(body[|body| - 1], before.env, f).Done?
            && RunBody(body, local, last, f).value == Evaluate(body[|body| - 1], before.env, f).value
    decreases |body|
  {
    var o := Evaluate(body[0], local, f);
    if |body| > 1 {
      assert body[..|body| - 1][0] == body[0];
      assert body[..|body| - 1][1..] == body[1..][..|body| - 2];
      BodyLastValue(body[1..], o.env, o.value, f);
    }
  }

  /** TryCatchNode does not look inside its try body beyond the kinds of
      its nodes: two try bodies that agree on holding a TryCatchNode give
      the same outcome, and nothing of the try body is ever run. */
  lemma TryIgnoresTryBody(t1: seq<Node>, t2: seq<Node>, catchBody: seq<Node>, env: Env, f: nat)
    requires HasNestedTry(t1) == HasNestedTry(t2)
    ensures Evaluate(TryCatchNode(t1, catchBody), env, f) == Evaluate(TryCatchNode(t2, catchBody), env, f)
    ensures !HasNestedTry(t1) ==> Evaluate(TryCatchNode(t1, catchBody), env, f) == Done(VNil, env, [])
  {
  }

  /** A number in an expression is an AssignNode with an empty name: it
      stores the number under the key "" and is nil itself. */
  lemma NumberTermValue(k: int, env: Env, f: nat)
    ensures Evaluate(AssignNode([], Constant(LitInt(k))), env, f) == Done(VNil, env[[] := VInt(k)], [])
  {
  }

  /** So arithmetic on two number literals is nil, and leaves the right
      operand under "". */
  lemma LiteralArithmetic(a: int, b: int, op: TokenType, env: Env, f: nat)
    requires IsArith(op)
    ensures var o := Evaluate(BinaryOpNode(AssignNode([], Constant(LitInt(a))), op, AssignNode([], Constant(LitInt(b)))), env, f);
            o.Done? && o.value == VNil && o.env == env[[] := VInt(b)]
  {
    assert env[[] := VInt(a)][[] := VInt(b)] == env[[] := VInt(b)];
  }

  /** `+` and `➕` are the same operation. */
  lemma PlusIsNumPlus(l: Node, r: Node, env: Env, f: nat)
    ensures Evaluate(BinaryOpNode(l, TokenPlus, r), env, f) == Evaluate(BinaryOpNode(l, TokenNumPlus, r), env, f)
  {
  }

  /** The comparison is true exactly when the variable holds the literal;
      an unset variable compares false. */
  lemma EqualTruth(name: Bytes, lit: Literal, env: Env, f: nat)
    ensures Evaluate(EqualNode(name, lit), env, f) == Done(VBool(Lookup(env, name) == LitValue(lit)), env, [])
  {
  }

  /** A print without placeholders prints its text, once, and is that text. */
  lemma PrintPlainText(text: Bytes, variables: seq<Bytes>, env: Env, f: nat)
    ensures Evaluate(PrintNode(text, false, variables), env, f) == Done(VStr(text), env, [text])
  {
  }

  /** Interpolation leaves the text alone when none of its names is both
      set and present as a placeholder. */
  lemma {:induction false} InterpolateIdentity(text: Bytes, names: seq<Bytes>, env: Env)
    requires forall k :: 0 <= k < |names| ==> names[k] !in env || !Contains(text, Placeholders.Placeholder(names[k]))
    ensures Interpolate(text, names, env) == text
    decreases |names|
  {
    if names != [] {
      if names[0] in env {
        Placeholders.ReplaceAllAbsent(text, Placeholders.Placeholder(names[0]), Format(env[names[0]]));
      }
      InterpolateIdentity(text, names[1..], env);
    }
  }

  /** Printing never changes the map and prints exactly one line. */
  lemma PrintOneLine(text: Bytes, interpolated: bool, variables: seq<Bytes>, env: Env, f: nat)
    ensures var o := Evaluate(PrintNode(text, interpolated, variables), env, f);
            o.Done? && o.env == env && |o.out| == 1 && o.value == VStr(o.out[0])
  {
  }
}
