/** The driver of internal/interpreter/interpreter.go: one variable map that
    lives as long as the interpreter, the value of the last node run, and
    the lines written to standard output, kept here as a growing trace. */
module Interpreter {
  import opened Text
  import opened Lexer
  import opened Ast
  import opened Semantics
  import opened Evaluator

  /** What `Interpret` prints itself after a node: an int or a bool result
      of a node other than a PrintNode, once; nothing otherwise. */
  function Echo(n: Node, v: Value): (lines: seq<Bytes>)
    ensures |lines| <= 1
    ensures lines != [] <==> !n.PrintNode? && (v.VInt? || v.VBool?)
    ensures lines != [] ==> lines[0] == Format(v)
  {
    if n.PrintNode? then []
    else match v
      case VInt(_) => [Format(v)]
      case VBool(_) => [Format(v)]
      case _ => []
  }

  /** One more node run after `before`, unless the fuel already ran out. */
  function Extend(before: Outcome, n: Node, fuel: nat): Outcome
  {
    if before.OutOfFuel? then OutOfFuel
    else
      var o := Evaluate(n, before.env, fuel);
      if o.OutOfFuel? then OutOfFuel
      else Done(o.value, o.env, before.out + o.out + Echo(n, o.value))
  }

  /** The nodes run in order on one map, starting from `env`: the value is
      the last node's (nil for no nodes) and the trace holds each node's own
      output followed by its echo. */
  function Run(nodes: seq<Node>, env: Env, fuel: nat): Outcome
    decreases |nodes|
  {
    if nodes == [] then Done(VNil, env, [])
    else Extend(Run(nodes[..|nodes| - 1], env, fuel), nodes[|nodes| - 1], fuel)
  }

  class Interpreter {
    /** The variable map, which lives as long as the interpreter, and
        standard output; every node is evaluated against them. */
    const machine: Machine
    /** The value of the last node run. */
    var result: Value

    /** NewInterpreter: an empty map, nothing computed, nothing printed. */
    constructor ()
      ensures fresh(machine)
      ensures machine.vars == map[] && machine.out == [] && result == VNil
    {
      machine := new Machine(map[]);
      result := VNil;
    }

    /** Interpret: runs the nodes in order against the interpreter's map,
        which keeps what earlier calls stored, and returns the last node's
        value. `stoppedAt` is |nodes| when every node ran, and otherwise the
        index of the node whose function calls went deeper than `fuel`;
        `result` is then the value of the node before it. */
    method Interpret(nodes: seq<Node>, fuel: nat) returns (value: Value, stoppedAt: nat)
      modifies this, machine
      ensures stoppedAt <= |nodes|
      ensures stoppedAt == |nodes| <==> Run(nodes, old(machine.vars), fuel).Done?
      ensures var r := Run(nodes[..stoppedAt], old(machine.vars), fuel);
              r.Done? && result == r.value && value == result
      ensures stoppedAt == |nodes| ==>
                machine.vars == Run(nodes, old(machine.vars), fuel).env
                && machine.out == old(machine.out) + Run(nodes, old(machine.vars), fuel).out
      ensures stoppedAt < |nodes| ==>
                Evaluate(nodes[stoppedAt], Run(nodes[..stoppedAt], old(machine.vars), fuel).env, fuel).OutOfFuel?
    {
      result := VNil;
      stoppedAt := 0;
      while stoppedAt < |nodes|
        invariant stoppedAt <= |nodes|
        invariant var r := Run(nodes[..stoppedAt], old(machine.vars), fuel);
                  r.Done? && machine.vars == r.env && result == r.value && machine.out == old(machine.out) + r.out
      {
        RunNext(nodes, stoppedAt, old(machine.vars), fuel);
        var good := RunNode(nodes[stoppedAt], fuel, old(machine.out), Run(nodes[..stoppedAt], old(machine.vars), fuel));
        if !good {
          ExhaustedRun(nodes, stoppedAt, old(machine.vars), fuel);
          return result, stoppedAt;
        }
        stoppedAt := stoppedAt + 1;
      }
      assert nodes[..stoppedAt] == nodes;
      value := result;
    }

    /** One turn of Interpret's loop: the node is evaluated, its value
        becomes `result`, and an int or bool value is printed. */
    method RunNode(n: Node, fuel: nat, ghost start: seq<Bytes>, ghost before: Outcome) returns (good: bool)
      modifies this, machine
      requires before.Done? && machine.vars == before.env && machine.out == start + before.out
      ensures var after := Extend(before, n, fuel);
              good == after.Done?
              && (good ==> machine.vars == after.env && result == after.value && machine.out == start + after.out)
      ensures !good ==> result == old(result)
    {
      var x;
      x, good := machine.Eval(n, fuel);
      if good {
        ghost var evaluated := machine.out;
        machine.out := machine.out + Echo(n, x);
        assert machine.out == start + (before.out + evaluated[|start + before.out|..] + Echo(n, x));
        result := x;
      }
    }

    /** GetResult: the value the last `Interpret` returned. */
    function GetResult(): (v: Value)
      reads this
      ensures v == result
    {
      result
    }
  }

  /** When one node exhausts the fuel, the whole run does. */
  lemma {:induction false} ExhaustedRun(nodes: seq<Node>, k: nat, env: Env, fuel: nat)
    requires k < |nodes|
    requires Run(nodes[..k], env, fuel).Done?
    requires Evaluate(nodes[k], Run(nodes[..k], env, fuel).env, fuel).OutOfFuel?
    ensures Run(nodes, env, fuel).OutOfFuel?
    decreases |nodes|
  {
    assert nodes[..k + 1][..k] == nodes[..k];
    if k + 1 < |nodes| {
      var front := nodes[..|nodes| - 1];
      assert front[..k] == nodes[..k];
      assert front[k] == nodes[k];
      ExhaustedRun(front, k, env, fuel);
    } else {
      assert nodes[..|nodes| - 1] == nodes[..k];
    }
  }

  /** Two runs on the same map are one run of the two lists joined: the map
      and the trace carry over, and the value is the second run's unless it
      had no nodes. This is why definitions made by one `Interpret` call are
      visible to the next. */
  lemma {:induction false} RunAppend(a: seq<Node>, b: seq<Node>, env: Env, fuel: nat)
    requires Run(a, env, fuel).Done?
    ensures var ra := Run(a, env, fuel);
            var rb := Run(b, ra.env, fuel);
            var ab := Run(a + b, env, fuel);
            (ab.Done? <==> rb.Done?)
            && (rb.Done? ==> ab.env == rb.env && ab.out == ra.out + rb.out
                             && ab.value == (if b == [] then ra.value else rb.value))
    decreases |b|
  {
    if b == [] {
      assert a + b == a;
    } else {
      var front, last := b[..|b| - 1], b[|b| - 1];
      assert (a + b)[..|a + b| - 1] == a + front;
      assert (a + b)[|a + b| - 1] == last;
      RunAppend(a, front, env, fuel);
      ExtendShift(Run(a + front, env, fuel), Run(front, Run(a, env, fuel).env, fuel), Run(a, env, fuel).out, last, fuel);
    }
  }

  /** Extending two outcomes that end on the same map, one with extra
      output in front, gives the same outcome but for that extra output. */
  lemma ExtendShift(x: Outcome, y: Outcome, prefix: seq<Bytes>, n: Node, fuel: nat)
    requires x.Done? <==> y.Done?
    requires y.Done? ==> x.env == y.env && x.out == prefix + y.out
    ensures Extend(x, n, fuel).Done? <==> Extend(y, n, fuel).Done?
    ensures Extend(y, n, fuel).Done? ==>
              Extend(x, n, fuel).env == Extend(y, n, fuel).env
              && Extend(x, n, fuel).value == Extend(y, n, fuel).value
              && Extend(x, n, fuel).out == prefix + Extend(y, n, fuel).out
  {
    if y.Done? {
      var o := Evaluate(n, y.env, fuel);
      if o.Done? {
        assert x.out + o.out + Echo(n, o.value) == prefix + (y.out + o.out + Echo(n, o.value));
      }
    }
  }

  /** Run over the first k + 1 nodes is Run over the first k, extended. */
  lemma RunNext(nodes: seq<Node>, k: nat, env: Env, fuel: nat)
    requires k < |nodes|
    ensures Run(nodes[..k + 1], env, fuel) == Extend(Run(nodes[..k], env, fuel), nodes[k], fuel)
  {
    assert nodes[..k + 1][..k] == nodes[..k];
  }

  /** A list of plain prints writes each text exactly once, in order:
      `Interpret` adds no echo of its own for a PrintNode. */
  lemma {:induction false} PrintsOnce(nodes: seq<Node>, env: Env, fuel: nat)
    requires forall i :: 0 <= i < |nodes| ==> nodes[i].PrintNode? && !nodes[i].interpolated
    ensures Run(nodes, env, fuel).Done?
    ensures Run(nodes, env, fuel).out == seq(|nodes|, i requires 0 <= i < |nodes| => nodes[i].text)
    ensures Run(nodes, env, fuel).env == env
    decreases |nodes|
  {
    if nodes != [] {
      var front := nodes[..|nodes| - 1];
      PrintsOnce(front, env, fuel);
    }
  }

  /** The value of a run is the value of its last node on the map the
      nodes before it left; nil for no nodes. */
  lemma LastValue(nodes: seq<Node>, env: Env, fuel: nat)
    requires Run(nodes, env, fuel).Done?
    ensures nodes == [] ==> Run(nodes, env, fuel).value == VNil
    ensures nodes != [] ==>
              var before := Run(nodes[..|nodes| - 1], env, fuel);
              before.Done? && Run(nodes, env, fuel).value == Evaluate(nodes[|nodes| - 1], before.env, fuel).value
  {
  }
}
