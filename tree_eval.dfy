/** RunTree: batched evaluation of an expression tree over vectors of the
    search space's dimension n. */
module TreeEval {
  import opened Common
  import opened Trees

  /** A result buffer; None is a null pointer. */
  type Vec = Option<seq<real>>

  /** The elementwise operators f_SUM_ ... f_LOG_ (and an ABS counterpart).
      Their definitions are not part of this model, so they are parameters:
      each takes its argument buffers (possibly null) and n. */
  datatype Elementwise = Elementwise(
    sum: (Vec, Vec, int) -> Vec,
    sub: (Vec, Vec, int) -> Vec,
    mul: (Vec, Vec, int) -> Vec,
    dvd: (Vec, Vec, int) -> Vec,
    exp: (Vec, int) -> Vec,
    sqrt: (Vec, int) -> Vec,
    log: (Vec, int) -> Vec,
    abs: (Vec, int) -> Vec)

  /** What RunTree reads from the search space: n, the constant table and
      the x vectors of the terminal-binding agents. */
  datatype Env = Env(n: int, constants: seq<real>, bindings: seq<seq<real>>)

  predicate HasLength(v: Vec, n: int)
  {
    v.Some? ==> |v.value| == n
  }

  /** An environment built by CreateSearchSpace: n >= 1 and every bound
      agent's x has n components. */
  predicate EnvOk(env: Env)
  {
    env.n >= 1 && forall i :: 0 <= i < |env.bindings| ==> |env.bindings[i]| == env.n
  }

  /** Every leaf's index is inside the table the evaluator reads it from. */
  predicate Indexed(env: Env, t: Tree)
  {
    match t
    case Nil => true
    case Node(status, id, _, l, r, _) =>
      (status == Terminal ==> 0 <= id < |env.bindings|)
      && (status == Constant ==> 0 <= id < |env.constants|)
      && Indexed(env, l) && Indexed(env, r)
  }

  /** The operators return buffers of length n whenever the buffers they are
      given are null or of length n. */
  ghost predicate KeepsLength(ops: Elementwise, n: int)
  {
    (forall u, w :: HasLength(u, n) && HasLength(w, n) ==> HasLength(ops.sum(u, w, n), n))
    && (forall u, w :: HasLength(u, n) && HasLength(w, n) ==> HasLength(ops.sub(u, w, n), n))
    && (forall u, w :: HasLength(u, n) && HasLength(w, n) ==> HasLength(ops.mul(u, w, n), n))
    && (forall u, w :: HasLength(u, n) && HasLength(w, n) ==> HasLength(ops.dvd(u, w, n), n))
    && (forall u :: HasLength(u, n) ==> HasLength(ops.exp(u, n), n))
    && (forall u :: HasLength(u, n) ==> HasLength(ops.sqrt(u, n), n))
    && (forall u :: HasLength(u, n) ==> HasLength(ops.log(u, n), n))
    && (forall u :: HasLength(u, n) ==> HasLength(ops.abs(u, n), n))
  }

  /** Length preserving, and never null when given non-null buffers. */
  ghost predicate Total(ops: Elementwise, n: int)
  {
    KeepsLength(ops, n)
    && (forall u: Vec, w: Vec :: u.Some? && w.Some? ==> ops.sum(u, w, n).Some?)
    && (forall u: Vec, w: Vec :: u.Some? && w.Some? ==> ops.sub(u, w, n).Some?)
    && (forall u: Vec, w: Vec :: u.Some? && w.Some? ==> ops.mul(u, w, n).Some?)
    && (forall u: Vec, w: Vec :: u.Some? && w.Some? ==> ops.dvd(u, w, n).Some?)
    && (forall u: Vec :: u.Some? ==> ops.exp(u, n).Some?)
    && (forall u: Vec :: u.Some? ==> ops.sqrt(u, n).Some?)
    && (forall u: Vec :: u.Some? ==> ops.log(u, n).Some?)
    && (forall u: Vec :: u.Some? ==> ops.abs(u, n).Some?)
  }

  /** The string dispatch of an operator node on its children's results x
      and y.  The unary operators take x when it is non-null, else y.  Any
      other name gives null; so does ABS unless absCase is set. */
  function Dispatch(ops: Elementwise, name: string, x: Vec, y: Vec, n: int, absCase: bool): (r: Vec)
    ensures Arity(name).None? ==> r == None
    ensures name == "ABS" && !absCase ==> r == None
  {
    if name == "SUM" then ops.sum(x, y, n)
    else if name == "SUB" then ops.sub(x, y, n)
    else if name == "MUL" then ops.mul(x, y, n)
    else if name == "DIV" then ops.dvd(x, y, n)
    else if name == "EXP" then (if x.Some? then ops.exp(x, n) else ops.exp(y, n))
    else if name == "SQRT" then (if x.Some? then ops.sqrt(x, n) else ops.sqrt(y, n))
    else if name == "LOG" then (if x.Some? then ops.log(x, n) else ops.log(y, n))
    else if name == "ABS" && absCase then (if x.Some? then ops.abs(x, n) else ops.abs(y, n))
    else None
  }

  /** The evaluator with a terminal leaf copying its agent's x.  Both
      children are evaluated first; a constant leaf gives n copies of its
      constant; an operator node dispatches on its name.  absCase adds the
      ABS case that the library's dispatch lacks. */
  function Evaluate(env: Env, ops: Elementwise, t: Tree, absCase: bool): (r: Vec)
    requires EnvOk(env) && Indexed(env, t)
    ensures t == Nil ==> r == None
    ensures t.Node? && t.status != Function ==> r.Some? && |r.value| == env.n
    ensures t.Node? && t.status == Function && Arity(t.elem).None? ==> r == None
  {
    match t
    case Nil => None
    case Node(status, id, elem, l, r, _) =>
      var x := Evaluate(env, ops, l, absCase);
      var y := Evaluate(env, ops, r, absCase);
      if status == Constant then Some(seq(env.n, _ => env.constants[id]))
      else if status == Terminal then Some(env.bindings[id])
      else Dispatch(ops, elem, x, y, env.n, absCase)
  }

  /** RunTree with the terminal case repaired and the dispatch as written
      (no ABS case). */
  function RunTree(env: Env, ops: Elementwise, t: Tree): (r: Vec)
    requires EnvOk(env) && Indexed(env, t)
    ensures t.Node? && t.status != Function ==> r.Some? && |r.value| == env.n
    ensures t.Node? && t.status == Function && (t.elem == "ABS" || Arity(t.elem).None?) ==> r == None
  {
    Evaluate(env, ops, t, false)
  }

  /** RunTree with the terminal case repaired and an ABS case added. */
  function RunTreeWithAbs(env: Env, ops: Elementwise, t: Tree): (r: Vec)
    requires EnvOk(env) && Indexed(env, t)
    ensures t.Node? && t.status != Function ==> r == RunTree(env, ops, t)
    ensures t.Node? && t.status == Function && Arity(t.elem).None? ==> r == None
  {
    Evaluate(env, ops, t, true)
  }

  /** Some operator node of t is named ABS. */
  predicate MentionsAbs(t: Tree)
  {
    t.Node? && ((t.status == Function && t.elem == "ABS") || MentionsAbs(t.left) || MentionsAbs(t.right))
  }

  /** The ABS case changes the result only of trees that use ABS. */
  lemma {:induction false} RunTreeWithAbsAgrees(env: Env, ops: Elementwise, t: Tree)
    requires EnvOk(env) && Indexed(env, t) && !MentionsAbs(t)
    ensures RunTreeWithAbs(env, ops, t) == RunTree(env, ops, t)
  {
    match t
    case Nil =>
    case Node(status, id, elem, l, r, _) =>
      RunTreeWithAbsAgrees(env, ops, l);
      RunTreeWithAbsAgrees(env, ops, r);
  }

  /** The leaves and the empty tree. */
  lemma RunTreeLeaves(env: Env, ops: Elementwise, t: Tree)
    requires EnvOk(env) && Indexed(env, t)
    ensures t == Nil ==> RunTree(env, ops, t) == None
    ensures t.Node? && t.status == Constant ==>
      RunTree(env, ops, t) == Some(seq(env.n, _ => env.constants[t.id]))
    ensures t.Node? && t.status == Terminal ==> RunTree(env, ops, t) == Some(env.bindings[t.id])
  {
  }

  /** An operator node applies its operator to its children's results. */
  lemma RunTreeOperator(env: Env, ops: Elementwise, t: Tree)
    requires EnvOk(env) && Indexed(env, t) && t.Node? && t.status == Function
    ensures var x, y := RunTree(env, ops, t.left), RunTree(env, ops, t.right);
      RunTree(env, ops, t) ==
        if t.elem == "SUM" then ops.sum(x, y, env.n)
        else if t.elem == "SUB" then ops.sub(x, y, env.n)
        else if t.elem == "MUL" then ops.mul(x, y, env.n)
        else if t.elem == "DIV" then ops.dvd(x, y, env.n)
        else if t.elem == "EXP" then ops.exp(if x.Some? then x else y, env.n)
        else if t.elem == "SQRT" then ops.sqrt(if x.Some? then x else y, env.n)
        else if t.elem == "LOG" then ops.log(if x.Some? then x else y, env.n)
        else None
  {
  }

  /** Every non-null result has n components, when the operators keep
      lengths. */
  lemma {:induction false} RunTreeLength(env: Env, ops: Elementwise, t: Tree, absCase: bool)
    requires EnvOk(env) && Indexed(env, t) && KeepsLength(ops, env.n)
    ensures HasLength(Evaluate(env, ops, t, absCase), env.n)
  {
    match t
    case Nil =>
    case Node(status, id, elem, l, r, _) =>
      RunTreeLength(env, ops, l, absCase);
      RunTreeLength(env, ops, r, absCase);
  }

  /** Indices of a well-formed tree are in range of an environment whose
      tables have the sizes of the generator's tables. */
  lemma {:induction false} WellFormedIndexed(env: Env, tb: Tables, t: Tree)
    requires WellFormed(t, tb)
    requires |env.bindings| == |tb.terminals| && env.constants == tb.constants
    ensures Indexed(env, t)
  {
    match t
    case Node(status, id, elem, l, r, _) =>
      if status == Function {
        WellFormedIndexed(env, tb, l);
        if r != Nil {
          WellFormedIndexed(env, tb, r);
        }
      }
  }

  /** With the ABS case in place, every tree GROW can build evaluates to a
      vector of length n when the operators are total. */
  lemma {:induction false} WellFormedTreesEvaluate(env: Env, tb: Tables, ops: Elementwise, t: Tree)
    requires EnvOk(env) && WellFormed(t, tb) && Total(ops, env.n)
    requires |env.bindings| == |tb.terminals| && env.constants == tb.constants
    ensures Indexed(env, t)
    ensures RunTreeWithAbs(env, ops, t).Some? && |RunTreeWithAbs(env, ops, t).value| == env.n
  {
    WellFormedIndexed(env, tb, t);
    RunTreeLength(env, ops, t, true);
    match t
    case Node(status, id, elem, l, r, _) =>
      if status == Function {
        WellFormedTreesEvaluate(env, tb, ops, l);
        if r != Nil {
          WellFormedTreesEvaluate(env, tb, ops, r);
        }
        DispatchTotal(ops, elem, Evaluate(env, ops, l, true), Evaluate(env, ops, r, true), env.n);
      }
  }

  /** With total operators and the ABS case, a listed operator gives a
      buffer when its operands are there. */
  lemma DispatchTotal(ops: Elementwise, name: string, x: Vec, y: Vec, n: int)
    requires Total(ops, n) && Arity(name).Some? && x.Some?
    requires Arity(name) == Some(2) ==> y.Some?
    ensures Dispatch(ops, name, x, y, n, true).Some?
  {
  }

  /** The unary ABS node GROW can build (the arity table lists ABS) over a
      single leaf, for a table whose k-th function is ABS. */
  function AbsTree(k: int, leaf: Tree): Tree
  {
    Node(Function, k, "ABS", leaf, Nil, true)
  }

  /** That well-formed tree evaluates to null even with total operators,
      while the version with an ABS case gives a vector.  In the code as
      written this null is reached over a constant leaf; over a terminal leaf
      the terminal branch faults first. */
  lemma AbsTreeYieldsNull(env: Env, tb: Tables, ops: Elementwise, k: int, leaf: Tree)
    requires EnvOk(env) && Total(ops, env.n)
    requires |env.bindings| == |tb.terminals| && env.constants == tb.constants
    requires 0 <= k < |tb.functions| && tb.functions[k] == "ABS"
    requires WellFormed(leaf, tb) && IsLeaf(leaf) && leaf.leftSon
    ensures WellFormed(AbsTree(k, leaf), tb)
    ensures Indexed(env, AbsTree(k, leaf))
    ensures RunTree(env, ops, AbsTree(k, leaf)) == None
    ensures RunTreeWithAbs(env, ops, AbsTree(k, leaf)).Some?
    ensures leaf.status == Constant ==> RunTreeAsWritten(env, ops, AbsTree(k, leaf)) == Value(None)
    ensures leaf.status == Terminal ==> RunTreeAsWritten(env, ops, AbsTree(k, leaf)) == Fault
  {
    assert Arity("ABS") == Some(1);
    WellFormedTreesEvaluate(env, tb, ops, AbsTree(k, leaf));
    if leaf.status == Constant {
      assert !ContainsTerminal(leaf.left) && !ContainsTerminal(leaf.right);
      AsWrittenAgreesWithoutTerminals(env, ops, AbsTree(k, leaf));
    } else if leaf.status == Terminal {
      AsWrittenTerminalFaults(env, ops, AbsTree(k, leaf));
    }
  }

  // ---------------------------------------------------------------------
  // The evaluator as the library writes it.

  /** A run of the library's RunTree: a returned buffer, or a fault. */
  datatype Run = Value(v: Vec) | Fault

  /** RunTree exactly as written: the terminal branch stores into `out`
      while it is still a null pointer, which faults for n >= 1. */
  function RunTreeAsWritten(env: Env, ops: Elementwise, t: Tree): (r: Run)
    requires EnvOk(env) && Indexed(env, t)
    ensures t == Nil ==> r == Value(None)
    ensures t.Node? && t.status == Terminal ==> r == Fault
  {
    match t
    case Nil => Value(None)
    case Node(status, id, elem, l, r, _) =>
      match RunTreeAsWritten(env, ops, l)
      case Fault => Fault
      case Value(x) =>
        match RunTreeAsWritten(env, ops, r)
        case Fault => Fault
        case Value(y) =>
          if status == Constant then Value(Some(seq(env.n, _ => env.constants[id])))
          else if status == Terminal then Fault
          else Value(Dispatch(ops, elem, x, y, env.n, false))
  }

  predicate ContainsTerminal(t: Tree)
  {
    t.Node? && (t.status == Terminal || ContainsTerminal(t.left) || ContainsTerminal(t.right))
  }

  /** As written, every tree that mentions a terminal faults: evaluation
      reaches each node. */
  lemma {:induction false} AsWrittenTerminalFaults(env: Env, ops: Elementwise, t: Tree)
    requires EnvOk(env) && Indexed(env, t) && ContainsTerminal(t)
    ensures RunTreeAsWritten(env, ops, t) == Fault
  {
    match t
    case Node(status, id, elem, l, r, _) =>
      if status != Terminal {
        if ContainsTerminal(l) {
          AsWrittenTerminalFaults(env, ops, l);
        } else {
          AsWrittenAgreesWithoutTerminals(env, ops, l);
          AsWrittenTerminalFaults(env, ops, r);
        }
      }
  }

  /** On trees without terminals the library's RunTree and the repaired one
      agree. */
  lemma {:induction false} AsWrittenAgreesWithoutTerminals(env: Env, ops: Elementwise, t: Tree)
    requires EnvOk(env) && Indexed(env, t) && !ContainsTerminal(t)
    ensures RunTreeAsWritten(env, ops, t) == Value(RunTree(env, ops, t))
  {
    match t
    case Nil =>
    case Node(status, id, elem, l, r, _) =>
      AsWrittenAgreesWithoutTerminals(env, ops, l);
      AsWrittenAgreesWithoutTerminals(env, ops, r);
  }

  /** The repaired terminal case returns a copy of the bound agent's x. */
  lemma RunTreeTerminalCopies(env: Env, ops: Elementwise, id: int, name: string)
    requires EnvOk(env) && 0 <= id < |env.bindings|
    ensures RunTree(env, ops, Node(Terminal, id, name, Nil, Nil, true)) == Some(env.bindings[id])
    ensures RunTreeAsWritten(env, ops, Node(Terminal, id, name, Nil, Nil, true)) == Fault
  {
  }

  // ---------------------------------------------------------------------
  // Worked examples.

  /** An elementwise sum of two buffers of at least n components. */
  function PointwiseSum(u: Vec, w: Vec, n: int): Vec
  {
    if u.Some? && w.Some? && 0 <= n <= |u.value| && n <= |w.value|
    then Some(seq(n, i requires 0 <= i < n => u.value[i] + w.value[i]))
    else None
  }

  /** A constant leaf holding 5.0 over n = 3 gives [5.0, 5.0, 5.0]; SUM of
      two terminals bound to [1, 2, 3] and [4, 5, 6] gives [5, 7, 9]. */
  lemma RunTreeExamples(ops: Elementwise)
    requires ops.sum == PointwiseSum
    ensures RunTree(Env(3, [5.0], []), ops, Node(Constant, 0, CONST, Nil, Nil, true)) == Some([5.0, 5.0, 5.0])
    ensures var env := Env(3, [], [[1.0, 2.0, 3.0], [4.0, 5.0, 6.0]]);
      var t := Node(Function, 0, "SUM", Node(Terminal, 0, "x0", Nil, Nil, true),
                    Node(Terminal, 1, "x1", Nil, Nil, false), true);
      Indexed(env, t) && RunTree(env, ops, t) == Some([5.0, 7.0, 9.0])
  {
    var env := Env(3, [], [[1.0, 2.0, 3.0], [4.0, 5.0, 6.0]]);
    assert EnvOk(env);
    var t := Node(Function, 0, "SUM", Node(Terminal, 0, "x0", Nil, Nil, true),
                  Node(Terminal, 1, "x1", Nil, Nil, false), true);
    assert Evaluate(env, ops, t.left, false) == Some([1.0, 2.0, 3.0]);
    assert Evaluate(env, ops, t.right, false) == Some([4.0, 5.0, 6.0]);
    assert RunTree(env, ops, t) == PointwiseSum(Some([1.0, 2.0, 3.0]), Some([4.0, 5.0, 6.0]), 3);
    var sum := seq(3, i requires 0 <= i < 3 => [1.0, 2.0, 3.0][i] + [4.0, 5.0, 6.0][i]);
    assert sum[0] == 5.0 && sum[1] == 7.0 && sum[2] == 9.0;
    assert sum == [5.0, 7.0, 9.0];
    assert RunTree(Env(3, [5.0], []), ops, Node(Constant, 0, CONST, Nil, Nil, true)) == Some(seq(3, _ => 5.0));
    assert seq(3, _ => 5.0) == [5.0, 5.0, 5.0];
  }
}
