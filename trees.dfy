/** Expression trees of genetic programming: the operator table, node
    creation and the GROW generator. */
module Trees {
  import opened Common

  datatype Status = Terminal | Constant | Function

  /** A tree slot: empty (a null pointer) or a node.  `id` indexes the
      terminal table, the constant table or the function table according to
      `status`; `leftSon` is false only for the second child of a binary
      operator.  The parent back-pointer is navigational and not modelled. */
  datatype Tree =
    | Nil
    | Node(status: Status, id: int, elem: string, left: Tree, right: Tree, leftSon: bool)

  /** The operator names in identifier order: _SUM_ is 0, ..., _ABS_ is 7. */
  const OPERATORS: seq<string> := ["SUM", "SUB", "MUL", "DIV", "EXP", "SQRT", "LOG", "ABS"]

  /** N_ARGS_FUNCTION: the number of children of each operator, in the same
      order. */
  const N_ARGS_FUNCTION: seq<nat> := [2, 2, 2, 2, 1, 1, 1, 1]

  /** The reserved terminal name that stands for a constant. */
  const CONST: string := "CONST"

  /** getFUNCTIONid: the identifier of an operator name, or None where the
      library prints "Undefined function" and exits. */
  function FunctionId(s: string): (r: Option<nat>)
    ensures r.Some? <==> s in OPERATORS
    ensures r.Some? ==> r.value < |OPERATORS| && OPERATORS[r.value] == s
  {
    if s == "SUM" then Some(0)
    else if s == "SUB" then Some(1)
    else if s == "MUL" then Some(2)
    else if s == "DIV" then Some(3)
    else if s == "EXP" then Some(4)
    else if s == "SQRT" then Some(5)
    else if s == "LOG" then Some(6)
    else if s == "ABS" then Some(7)
    else None
  }

  /** getFUNCTIONid inverts the operator table. */
  lemma FunctionIdOfOperator(k: nat)
    requires k < |OPERATORS|
    ensures FunctionId(OPERATORS[k]) == Some(k)
  {
  }

  /** The arity table read through getFUNCTIONid: the four arithmetic
      operators take two arguments, the other four take one. */
  function Arity(s: string): (r: Option<nat>)
    ensures r.Some? <==> s in OPERATORS
    ensures r == Some(2) <==> s in ["SUM", "SUB", "MUL", "DIV"]
    ensures r == Some(1) <==> s in ["EXP", "SQRT", "LOG", "ABS"]
  {
    match FunctionId(s)
    case None => None
    case Some(k) => Some(N_ARGS_FUNCTION[k])
  }

  /** CreateNode: a childless node marked as a left child. */
  function CreateNode(value: string, nodeId: int, status: Status): (t: Tree)
    ensures t.Node? && t.left == Nil && t.right == Nil && t.leftSon
    ensures t.elem == value && t.id == nodeId && t.status == status
  {
    Node(status, nodeId, value, Nil, Nil, true)
  }

  /** The tables GROW draws from (terminal, constant and function names);
      their lengths are n_terminals, n_constants and n_functions. */
  datatype Tables = Tables(terminals: seq<string>, constants: seq<real>, functions: seq<string>)

  /** The result of drawing trees: what was built and the draws left. */
  datatype Grown<T> = Grown(value: T, rest: seq<nat>) | Fatal(name: string) | DrawFailed

  /** One uniform integer draw in [0, bound - 1]. */
  function Draw(draws: seq<nat>, bound: int): (r: Option<(nat, seq<nat>)>)
    ensures r.Some? <==> |draws| > 0 && draws[0] < bound
    ensures r.Some? ==> r.value.0 == draws[0] && r.value.1 == draws[1..]
  {
    if |draws| > 0 && draws[0] < bound then Some((draws[0], draws[1..])) else None
  }

  function Height(t: Tree): int
  {
    match t
    case Nil => -1
    case Node(_, _, _, l, r, _) => 1 + (if Height(l) < Height(r) then Height(r) else Height(l))
  }

  predicate IsLeaf(t: Tree)
  {
    t.Node? && t.left == Nil && t.right == Nil && t.status != Function
  }

  /** The shape GROW produces: leaves name a terminal or a constant of the
      tables, a terminal named CONST becomes a constant node, and every
      operator node has exactly as many children as the arity table says,
      the first marked as left child and a second one as not. */
  predicate WellFormed(t: Tree, tb: Tables)
  {
    match t
    case Nil => false
    case Node(status, id, elem, l, r, _) =>
      match status
      case Terminal =>
        l == Nil && r == Nil && 0 <= id < |tb.terminals| && elem == tb.terminals[id] && elem != CONST
      case Constant =>
        l == Nil && r == Nil && 0 <= id < |tb.constants| && elem == CONST
      case Function =>
        0 <= id < |tb.functions| && elem == tb.functions[id] && Arity(elem).Some?
        && WellFormed(l, tb) && l.leftSon
        && (if Arity(elem) == Some(1) then r == Nil else WellFormed(r, tb) && !r.leftSon)
  }

  /** The leaf for terminal index aux: a constant node with a freshly drawn
      constant index when the terminal is CONST, else a terminal node. */
  function GrowLeaf(tb: Tables, aux: nat, draws: seq<nat>): (r: Grown<Tree>)
    requires aux < |tb.terminals|
    ensures r.Grown? ==> WellFormed(r.value, tb) && IsLeaf(r.value) && r.value.leftSon
    ensures r.Grown? ==> |r.rest| <= |draws|
    ensures !r.Fatal?
    ensures r.Grown? && tb.terminals[aux] == CONST ==> r.value.status == Constant
    ensures r.Grown? && tb.terminals[aux] != CONST ==> r.value.status == Terminal && r.value.id == aux
  {
    if tb.terminals[aux] == CONST then
      match Draw(draws, |tb.constants|)
      case None => DrawFailed
      case Some((constId, rest)) => Grown(CreateNode(tb.terminals[aux], constId, Constant), rest)
    else Grown(CreateNode(tb.terminals[aux], aux, Terminal), draws)
  }

  /** GROW.  At minDepth == maxDepth a leaf is drawn from the terminals;
      below it one draw over functions and terminals together decides between
      a leaf and an operator node whose children are grown one level deeper,
      left first.  An operator name outside the table is fatal. */
  function Grow(tb: Tables, minDepth: int, maxDepth: int, draws: seq<nat>): (r: Grown<Tree>)
    requires minDepth <= maxDepth
    decreases maxDepth - minDepth
    ensures r.Grown? ==> WellFormed(r.value, tb) && r.value.leftSon
    ensures r.Grown? ==> Height(r.value) <= maxDepth - minDepth
    ensures r.Grown? && minDepth == maxDepth ==> IsLeaf(r.value)
    ensures r.Grown? ==> |r.rest| < |draws|
    ensures r.Fatal? ==> r.name in tb.functions && r.name !in OPERATORS
  {
    if minDepth == maxDepth then
      match Draw(draws, |tb.terminals|)
      case None => DrawFailed
      case Some((aux, rest)) => GrowLeaf(tb, aux, rest)
    else
      match Draw(draws, |tb.functions| + |tb.terminals|)
      case None => DrawFailed
      case Some((aux, rest)) =>
        if aux >= |tb.functions| then GrowLeaf(tb, aux - |tb.functions|, rest)
        else
          var name := tb.functions[aux];
          match Arity(name)
          case None => Fatal(name)
          case Some(arity) =>
            match Grow(tb, minDepth + 1, maxDepth, rest)
            case Fatal(f) => Fatal(f)
            case DrawFailed => DrawFailed
            case Grown(left, rest1) =>
              if arity == 1 then
                Grown(CreateNode(name, aux, Function).(left := left), rest1)
              else
                match Grow(tb, minDepth + 1, maxDepth, rest1)
                case Fatal(f) => Fatal(f)
                case DrawFailed => DrawFailed
                case Grown(right, rest2) =>
                  Grown(CreateNode(name, aux, Function).(left := left, right := right.(leftSon := false)), rest2)
  }

  /** The loop of CreateSearchSpace that fills T[0], ..., T[count - 1] with
      trees grown one after the other from the same stream of draws. */
  function GrowMany(tb: Tables, minDepth: int, maxDepth: int, count: nat, draws: seq<nat>): (r: Grown<seq<Tree>>)
    requires minDepth <= maxDepth
    ensures r.Grown? ==> |r.value| == count
    ensures r.Grown? ==> forall i :: 0 <= i < count ==>
      WellFormed(r.value[i], tb) && Height(r.value[i]) <= maxDepth - minDepth
    ensures r.Fatal? ==> r.name in tb.functions && r.name !in OPERATORS
  {
    if count == 0 then Grown([], draws)
    else
      match GrowMany(tb, minDepth, maxDepth, count - 1, draws)
      case Fatal(f) => Fatal(f)
      case DrawFailed => DrawFailed
      case Grown(ts, rest) =>
        match Grow(tb, minDepth, maxDepth, rest)
        case Fatal(f) => Fatal(f)
        case DrawFailed => DrawFailed
        case Grown(t, rest1) => Grown(ts + [t], rest1)
  }

  /** An operator name outside the table is fatal as soon as GROW draws it. */
  lemma GrowUndefinedFunctionIsFatal(tb: Tables, minDepth: int, maxDepth: int, draws: seq<nat>)
    requires minDepth < maxDepth
    requires |draws| > 0 && draws[0] < |tb.functions| && tb.functions[draws[0]] !in OPERATORS
    ensures Grow(tb, minDepth, maxDepth, draws) == Fatal(tb.functions[draws[0]])
  {
  }

  /** Without a leaf GROW can build (no terminal but CONST, and no constant),
      no draw sequence grows a tree: every path ends at a leaf draw over an
      empty range.  The library reads outside its tables there instead. */
  lemma {:induction false} GrowWithoutLeaves(tb: Tables, minDepth: int, maxDepth: int, draws: seq<nat>)
    requires minDepth <= maxDepth
    requires forall a :: 0 <= a < |tb.terminals| ==> tb.terminals[a] == CONST
    requires |tb.constants| == 0
    decreases maxDepth - minDepth
    ensures !Grow(tb, minDepth, maxDepth, draws).Grown?
  {
    if minDepth < maxDepth && |draws| > 0 && draws[0] < |tb.functions| && Arity(tb.functions[draws[0]]).Some? {
      GrowWithoutLeaves(tb, minDepth + 1, maxDepth, draws[1..]);
    }
  }

  /** A draw that picks a CONST terminal while the constant table is empty
      fails, at the leaf level and below it alike, whatever other terminals
      there are.  The library returns a CONSTANT node whose index lies
      outside the empty table instead. */
  lemma GrowConstWithoutConstants(tb: Tables, minDepth: int, maxDepth: int, c: nat, rest: seq<nat>)
    requires minDepth <= maxDepth
    requires c < |tb.terminals| && tb.terminals[c] == CONST && |tb.constants| == 0
    ensures minDepth == maxDepth ==> Grow(tb, minDepth, maxDepth, [c] + rest) == DrawFailed
    ensures minDepth < maxDepth ==> Grow(tb, minDepth, maxDepth, [|tb.functions| + c] + rest) == DrawFailed
  {
    assert ([c] + rest)[1..] == rest;
    assert ([|tb.functions| + c] + rest)[1..] == rest;
  }

  /** The arity read from the table of every reachable operator name. */
  lemma ArityTable(k: nat)
    requires k < |OPERATORS|
    ensures Arity(OPERATORS[k]) == Some(N_ARGS_FUNCTION[k])
    ensures N_ARGS_FUNCTION[k] == (if k < 4 then 2 else 1)
  {
  }
}
