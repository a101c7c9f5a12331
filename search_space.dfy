/** The search space: the population (agents, or trees with a pool of
    terminal-binding agents), the global best and the bounds
    (CreateSearchSpace, CheckAgentLimits, GenerateNewAgent, DestroyTree). */
module SearchSpaces {
  import opened Common
  import opened Agents
  import opened Trees

  /** The extra arguments CreateSearchSpace reads for genetic programming:
      the depth range of GROW and the terminal, constant and function tables. */
  datatype GpArgs = GpArgs(minDepth: int, maxDepth: int, tables: Tables)

  /** Agents of dimension n, each owning its buffers alone. */
  ghost predicate Population(pool: seq<Agent>, n: int)
  {
    (forall i :: 0 <= i < |pool| ==> pool[i].Valid() && pool[i].n == n)
    && (forall i, j :: 0 <= i < |pool| && 0 <= j < |pool| && i != j ==> pool[i].Disjoint(pool[j]))
  }

  /** Every agent of the pool has the fields technique t allocates. */
  ghost predicate ShapedFor(pool: seq<Agent>, t: Technique)
  {
    forall i :: 0 <= i < |pool| ==> pool[i].FieldsFor(t)
  }

  class SearchSpace {
    const m: int
    const n: int
    /** the agents (vector techniques) or the terminal-binding agents (GP) */
    const a: seq<Agent>
    /** the trees (GP only) */
    var T: seq<Tree>
    /** the global best position; null for GP */
    const g: array?<real>
    var gfit: real
    const LB: array<real>
    const UB: array<real>
    const minDepth: int
    const maxDepth: int
    const tables: Tables

    /** The bound buffers hold n doubles each and are not an agent's. */
    ghost predicate Bounds()
    {
      m >= 1 && n >= 1 && LB.Length == n && UB.Length == n && LB != UB
      && Population(a, n)
      && (forall i :: 0 <= i < |a| ==> a[i].Apart(LB) && a[i].Apart(UB))
    }

    /** A space built for one of the vector techniques: m agents and a
        global best buffer of length n that no agent owns. */
    ghost predicate VectorValid()
      reads this`T
    {
      Bounds() && |a| == m && T == [] && g != null && g.Length == n && g != LB && g != UB
      && forall i :: 0 <= i < |a| ==> a[i].Apart(g)
    }

    /** A space built for genetic programming: m trees as GROW builds them
        and one binding agent per terminal. */
    ghost predicate TreeValid()
      reads this`T
    {
      Bounds() && g == null && |T| == m && |a| == |tables.terminals| && minDepth <= maxDepth
      && forall i :: 0 <= i < m ==> WellFormed(T[i], tables) && Height(T[i]) <= maxDepth - minDepth
    }

    /** A space for a vector technique around its agents, with a zeroed
        global best. */
    constructor Vector(size: int, dim: int, pool: seq<Agent>)
      requires size >= 1 && dim >= 1 && |pool| == size && Population(pool, dim)
      ensures VectorValid() && m == size && n == dim && a == pool && gfit == DBL_MAX
      ensures fresh(g) && fresh(LB) && fresh(UB) && g[..] == Zeros(dim)
    {
      m, n := size, dim;
      gfit := DBL_MAX;
      a, T := pool, [];
      g := new real[dim](_ => 0.0);
      LB := new real[dim];
      UB := new real[dim];
      minDepth, maxDepth := 0, 0;
      tables := Tables([], [], []);
    }

    /** A space for genetic programming around its trees and binding agents;
        the bound buffers are allocated last. */
    constructor Forest(size: int, dim: int, pool: seq<Agent>, trees: seq<Tree>, lo: int, hi: int, tb: Tables)
      requires size >= 1 && dim >= 1 && Population(pool, dim) && |pool| == |tb.terminals|
      requires lo <= hi && |trees| == size
      requires forall i :: 0 <= i < size ==> WellFormed(trees[i], tb) && Height(trees[i]) <= hi - lo
      ensures TreeValid() && m == size && n == dim && a == pool && T == trees && gfit == DBL_MAX
      ensures minDepth == lo && maxDepth == hi && tables == tb
      ensures fresh(LB) && fresh(UB)
    {
      m, n := size, dim;
      gfit := DBL_MAX;
      a, T, g := pool, trees, null;
      LB := new real[dim];
      UB := new real[dim];
      minDepth, maxDepth := lo, hi;
      tables := tb;
    }

    /** DestroyTree on the slot T[i]: the slot becomes empty; on an empty
        slot nothing changes. */
    method DestroyTree(i: int)
      requires 0 <= i < |T|
      modifies this`T
      ensures T == old(T)[i := Nil]
      ensures old(T)[i] == Nil ==> T == old(T)
    {
      T := T[i := Nil];
    }
  }

  /** A population of agents for technique t, each as CreateAgent(n, t)
      leaves it: zero position and the worst fitnesses. */
  ghost predicate Filled(pool: seq<Agent>, n: int, t: Technique)
    reads pool, set i | 0 <= i < |pool| :: pool[i].x
  {
    Population(pool, n) && ShapedFor(pool, t)
    && forall i :: 0 <= i < |pool| ==>
      pool[i].x[..] == Zeros(n) && pool[i].fit == DBL_MAX && pool[i].pfit == DBL_MAX
  }

  /** The pool followed by count fresh agents built by CreateAgent(n, t). */
  method ExtendPool(pool0: seq<Agent>, count: nat, n: int, t: Technique) returns (pool: seq<Agent>)
    requires n >= 1 && Filled(pool0, n, t)
    ensures |pool| == |pool0| + count && forall i :: 0 <= i < |pool0| ==> pool[i] == pool0[i]
    ensures Filled(pool, n, t)
    ensures forall i :: |pool0| <= i < |pool| ==> fresh(pool[i].Repr())
  {
    pool := pool0;
    var i := 0;
    while i < count
      invariant 0 <= i <= count && |pool| == |pool0| + i && pool[..|pool0|] == pool0
      invariant Filled(pool, n, t)
      invariant forall k :: |pool0| <= k < |pool| ==> fresh(pool[k].Repr())
    {
      var agent := AddAgent(pool, n, t);
      pool := pool + [agent];
      i := i + 1;
    }
    assert forall i :: 0 <= i < |pool0| ==> pool[i] == pool[..|pool0|][i];
  }

  /** One more agent built by CreateAgent(n, t); it shares no buffer with
      the pool. */
  method AddAgent(pool: seq<Agent>, n: int, t: Technique) returns (agent: Agent)
    requires n >= 1 && Filled(pool, n, t)
    ensures fresh(agent.Repr())
    ensures Filled(pool + [agent], n, t)
  {
    agent := new Agent.Alloc(n, t);
    PopulationAppend(pool, agent, n);
  }

  /** A pool stays a population when an agent of the same dimension that
      shares no buffer with it joins. */
  lemma PopulationAppend(pool: seq<Agent>, agent: Agent, n: int)
    requires Population(pool, n) && agent.Valid() && agent.n == n
    requires forall k :: 0 <= k < |pool| ==> pool[k].Repr() !! agent.Repr()
    ensures Population(pool + [agent], n)
  {
  }

  /** The vector-technique part of CreateSearchSpace: the first agent
      decides whether the identifier is recognised; then the other m - 1
      agents and a zeroed global best are allocated. */
  method CreateVectorSpace(m: int, n: int, optId: int) returns (s: SearchSpace?)
    requires m >= 1 && n >= 1 && optId >= 1 && optId != GP_ID
    ensures s == null <==> Decode(optId).None?
    ensures s != null ==>
      fresh(s) && fresh(s.LB) && fresh(s.UB) && fresh(s.g)
      && s.m == m && s.n == n && s.gfit == DBL_MAX && s.VectorValid()
      && Filled(s.a, n, Decode(optId).value) && s.g[..] == Zeros(n)
      && forall i :: 0 <= i < |s.a| ==> fresh(s.a[i].Repr())
  {
    var first := CreateAgent(n, optId);
    if first == null {
      return null;
    }
    var t := Decode(optId).value;
    var pool := ExtendPool([first], m - 1, n, t);
    s := new SearchSpace.Vector(m, n, pool);
  }

  /** The loop of CreateSearchSpace that grows T[0], ..., T[count - 1];
      it stops at the first failure. */
  method GrowTrees(tb: Tables, minDepth: int, maxDepth: int, count: nat, draws: seq<nat>)
    returns (r: Grown<seq<Tree>>)
    requires minDepth <= maxDepth
    ensures r == GrowMany(tb, minDepth, maxDepth, count, draws)
  {
    var trees: seq<Tree> := [];
    var rest := draws;
    var i := 0;
    while i < count
      invariant 0 <= i <= count
      invariant GrowMany(tb, minDepth, maxDepth, i, draws) == Grown(trees, rest)
    {
      match Grow(tb, minDepth, maxDepth, rest)
      case Fatal(f) =>
        GrowManyFailureStays(tb, minDepth, maxDepth, i + 1, count, draws);
        return Fatal(f);
      case DrawFailed =>
        GrowManyFailureStays(tb, minDepth, maxDepth, i + 1, count, draws);
        return DrawFailed;
      case Grown(tree, rest1) =>
        trees, rest := trees + [tree], rest1;
        i := i + 1;
    }
    r := Grown(trees, rest);
  }

  /** The genetic-programming part of CreateSearchSpace: T[0], ...,
      T[m - 1] grown in turn from the draws, then one agent per terminal. */
  method CreateTreeSpace(m: int, n: int, gp: GpArgs, draws: seq<nat>) returns (r: Outcome<SearchSpace>)
    requires m >= 1 && n >= 1 && gp.minDepth <= gp.maxDepth
    ensures r.Exited? <==> GrowMany(gp.tables, gp.minDepth, gp.maxDepth, m, draws).Fatal?
    ensures r.OracleFailed? <==> GrowMany(gp.tables, gp.minDepth, gp.maxDepth, m, draws).DrawFailed?
    ensures r.Returned? ==>
      var s := r.value;
      fresh(s) && fresh(s.LB) && fresh(s.UB)
      && s.m == m && s.n == n && s.gfit == DBL_MAX && s.TreeValid()
      && s.tables == gp.tables && s.minDepth == gp.minDepth && s.maxDepth == gp.maxDepth
      && GrowMany(gp.tables, gp.minDepth, gp.maxDepth, m, draws).Grown?
      && s.T == GrowMany(gp.tables, gp.minDepth, gp.maxDepth, m, draws).value
      && Filled(s.a, n, GP)
      && forall i :: 0 <= i < |s.a| ==> fresh(s.a[i].Repr())
  {
    var tb := gp.tables;
    var grown := GrowTrees(tb, gp.minDepth, gp.maxDepth, m, draws);
    if grown.Fatal? {
      return Exited;
    } else if grown.DrawFailed? {
      return OracleFailed;
    }
    var pool := ExtendPool([], |tb.terminals|, n, GP);
    var s := new SearchSpace.Forest(m, n, pool, grown.value, gp.minDepth, gp.maxDepth, tb);
    r := Returned(s);
  }

  /** CreateSearchSpace.  Null for m < 1, n < 1, a non-positive identifier
      or one CreateAgent does not recognise.  Otherwise gfit is DBL_MAX, LB
      and UB hold n (unset) doubles, and either m zeroed agents and a zeroed
      g of length n, or, for genetic programming, m trees grown one after
      another from the draws and one binding agent per terminal, where an
      undefined operator terminates the process. */
  method CreateSearchSpace(m: int, n: int, optId: int, gp: GpArgs, draws: seq<nat>)
    returns (r: Outcome<SearchSpace?>)
    requires Decode(optId) == Some(GP) ==> gp.minDepth <= gp.maxDepth
    ensures r == Returned(null) <==> m < 1 || n < 1 || optId < 1 || Decode(optId).None?
    ensures r.Exited? <==>
      (m >= 1 && n >= 1 && Decode(optId) == Some(GP)
       && GrowMany(gp.tables, gp.minDepth, gp.maxDepth, m, draws).Fatal?)
    ensures r.OracleFailed? <==>
      (m >= 1 && n >= 1 && Decode(optId) == Some(GP)
       && GrowMany(gp.tables, gp.minDepth, gp.maxDepth, m, draws).DrawFailed?)
    ensures r.Returned? && r.value != null ==>
      var s := r.value;
      fresh(s) && fresh(s.LB) && fresh(s.UB) && s.m == m && s.n == n && s.gfit == DBL_MAX
      && Filled(s.a, n, Decode(optId).value)
      && (forall i :: 0 <= i < |s.a| ==> fresh(s.a[i].Repr()))
      && (Decode(optId) != Some(GP) ==> s.VectorValid() && fresh(s.g) && s.g[..] == Zeros(n))
      && (Decode(optId) == Some(GP) ==>
            s.TreeValid() && s.tables == gp.tables
            && s.minDepth == gp.minDepth && s.maxDepth == gp.maxDepth
            && GrowMany(gp.tables, gp.minDepth, gp.maxDepth, m, draws).Grown?
            && s.T == GrowMany(gp.tables, gp.minDepth, gp.maxDepth, m, draws).value)
  {
    if m < 1 || n < 1 || optId < 1 {
      return Returned(null);
    }
    if optId != GP_ID {
      var s := CreateVectorSpace(m, n, optId);
      return Returned(s);
    }
    assert Decode(optId) == Some(GP);
    var t := CreateTreeSpace(m, n, gp, draws);
    match t
    case Returned(s) => return Returned(s);
    case Exited => return Exited;
    case OracleFailed => return OracleFailed;
  }

  /** Once growing the first k trees fails, growing more fails the same way. */
  lemma {:induction false} GrowManyFailureStays(tb: Tables, minDepth: int, maxDepth: int, k: nat, count: nat, draws: seq<nat>)
    requires minDepth <= maxDepth && k <= count
    requires !GrowMany(tb, minDepth, maxDepth, k, draws).Grown?
    ensures GrowMany(tb, minDepth, maxDepth, count, draws) == GrowMany(tb, minDepth, maxDepth, k, draws)
    decreases count - k
  {
    if k < count {
      GrowManyFailureStays(tb, minDepth, maxDepth, k, count - 1, draws);
    }
  }

  // ---------------------------------------------------------------------
  // Bounds.

  /** One component brought into [lo, hi]: below lo it becomes lo, else
      above hi it becomes hi. */
  function Clamp(x: real, lo: real, hi: real): (r: real)
    ensures lo <= hi ==> lo <= r <= hi
    ensures lo <= x <= hi ==> r == x
    ensures x < lo ==> r == lo
    ensures lo <= x && x > hi ==> r == hi
  {
    if x < lo then lo else if x > hi then hi else x
  }

  /** The effect of CheckAgentLimits on a position. */
  function Clamped(x: seq<real>, lb: seq<real>, ub: seq<real>): (r: seq<real>)
    requires |lb| == |x| && |ub| == |x|
    ensures |r| == |x|
  {
    seq(|x|, j requires 0 <= j < |x| => Clamp(x[j], lb[j], ub[j]))
  }

  /** With LB[j] <= UB[j], every component ends inside its bounds. */
  lemma ClampedWithinBounds(x: seq<real>, lb: seq<real>, ub: seq<real>)
    requires |lb| == |x| && |ub| == |x|
    requires forall j :: 0 <= j < |x| ==> lb[j] <= ub[j]
    ensures forall j :: 0 <= j < |x| ==> lb[j] <= Clamped(x, lb, ub)[j] <= ub[j]
  {
  }

  /** Components already inside their bounds are left as they are. */
  lemma ClampedKeepsInRange(x: seq<real>, lb: seq<real>, ub: seq<real>)
    requires |lb| == |x| && |ub| == |x|
    ensures forall j :: 0 <= j < |x| && lb[j] <= x[j] <= ub[j] ==> Clamped(x, lb, ub)[j] == x[j]
  {
  }

  /** Clamping twice is clamping once, given LB[j] <= UB[j]. */
  lemma ClampedIdempotent(x: seq<real>, lb: seq<real>, ub: seq<real>)
    requires |lb| == |x| && |ub| == |x|
    requires forall j :: 0 <= j < |x| ==> lb[j] <= ub[j]
    ensures Clamped(Clamped(x, lb, ub), lb, ub) == Clamped(x, lb, ub)
  {
  }

  /** Without LB[j] <= UB[j] the second pass can move a component again. */
  lemma ClampedNotIdempotentOnInvertedBounds()
    ensures Clamped(Clamped([0.0], [2.0], [1.0]), [2.0], [1.0]) != Clamped([0.0], [2.0], [1.0])
  {
    assert Clamped([0.0], [2.0], [1.0])[0] == 2.0;
    assert Clamped(Clamped([0.0], [2.0], [1.0]), [2.0], [1.0])[0] == 1.0;
  }

  /** CheckAgentLimits: a missing search space or agent terminates the
      process; otherwise a's position is clamped into [LB, UB] in place and
      nothing else of the agent changes. */
  method CheckAgentLimits(s: SearchSpace?, a: Agent?) returns (exited: bool)
    requires s != null && a != null ==>
      a.Valid() && a.n <= s.LB.Length && a.n <= s.UB.Length && a.x != s.LB && a.x != s.UB
    modifies if a != null then {a.x} else {}
    ensures exited <==> s == null || a == null
    ensures !exited ==> a.x[..] == Clamped(old(a.x[..]), s.LB[..a.n], s.UB[..a.n])
    ensures a != null ==>
      unchanged(a) && (a.v != null ==> unchanged(a.v)) && (a.xl != null ==> unchanged(a.xl))
  {
    if s == null || a == null {
      return true;
    }
    exited := false;
    var j := 0;
    while j < a.n
      invariant 0 <= j <= a.n
      invariant forall k :: 0 <= k < j ==> a.x[k] == Clamp(old(a.x[k]), s.LB[k], s.UB[k])
      invariant forall k :: j <= k < a.n ==> a.x[k] == old(a.x[k])
    {
      if a.x[j] < s.LB[j] {
        a.x[j] := s.LB[j];
      } else if a.x[j] > s.UB[j] {
        a.x[j] := s.UB[j];
      }
      j := j + 1;
    }
  }

  // ---------------------------------------------------------------------
  // New agents.

  /** The bat algorithm's new position: the global best plus 0.001 times a
      uniform draw in [0, 1], per component. */
  function Perturb(g: seq<real>, u: seq<real>): (r: seq<real>)
    requires |u| == |g|
    ensures |r| == |g|
    ensures forall j :: 0 <= j < |g| && 0.0 <= u[j] <= 1.0 ==> g[j] <= r[j] <= g[j] + 0.001
    ensures forall j :: 0 <= j < |g| && u[j] == 0.0 ==> r[j] == g[j]
  {
    seq(|g|, j requires 0 <= j < |g| => g[j] + 0.001 * u[j])
  }

  /** GenerateNewAgent: a missing search space terminates the process; for
      the bat algorithm the result is a fresh agent whose position perturbs g
      by the draws u (one per component); for every other identifier,
      recognised or not, it is null. */
  method GenerateNewAgent(s: SearchSpace?, optId: int, u: seq<real>) returns (r: Outcome<Agent?>)
    requires s != null && Decode(optId) == Some(BA) ==>
      s.n >= 1 && s.g != null && s.g.Length == s.n && |u| == s.n
    ensures r.Exited? <==> s == null
    ensures s != null ==> r.Returned? && (r.value != null <==> Decode(optId) == Some(BA))
    ensures s != null && r.Returned? && r.value != null ==>
      var a := r.value;
      fresh(a.Repr()) && a.Valid() && a.FieldsFor(BA) && a.n == s.n
      && s.g != null && a.x[..] == Perturb(s.g[..], u)
      && a.v[..] == Zeros(s.n) && a.fit == DBL_MAX && a.pfit == DBL_MAX
  {
    if s == null {
      return Exited;
    }
    var a: Agent? := null;
    if optId == BA_ID {
      assert Decode(optId) == Some(BA);
      var created := CreateAgent(s.n, BA_ID);
      var b: Agent := created;
      var j := 0;
      while j < s.n
        invariant 0 <= j <= s.n
        invariant fresh(b.Repr()) && b.Valid() && b.FieldsFor(BA) && b.n == s.n
        invariant forall k :: 0 <= k < j ==> b.x[k] == s.g[k] + 0.001 * u[k]
        invariant b.v[..] == Zeros(s.n) && b.fit == DBL_MAX && b.pfit == DBL_MAX
      {
        b.x[j] := s.g[j] + 0.001 * u[j];
        j := j + 1;
      }
      a := b;
    }
    r := Returned(a);
  }
}
