/** EvaluateSearchSpace: one evaluation pass over the agents, keeping each
    agent's best fitness (and, for particle swarm, its best position) and the
    global best fitness and position. */
module Evaluation {
  import opened Common
  import opened Agents
  import opened SearchSpaces

  /** An agent's fitness after one evaluation: the new value f when it is
      strictly better than the fitness it had. */
  function Improved(f: real, fit: real): (r: real)
    ensures r <= f && r <= fit && (r == f || r == fit)
    ensures r < fit <==> f < fit
  {
    if f < fit then f else fit
  }

  /** The global best after the agents with (already updated) fitnesses
      fits and positions xs have been visited in order, starting from gfit
      and g: each agent strictly better than the running best replaces it. */
  function GlobalBest(fits: seq<real>, xs: seq<seq<real>>, gfit: real, g: seq<real>): (real, seq<real>)
    requires |fits| == |xs|
  {
    if |fits| == 0 then (gfit, g)
    else
      var prev := GlobalBest(fits[..|fits| - 1], xs[..|xs| - 1], gfit, g);
      if fits[|fits| - 1] < prev.0 then (fits[|fits| - 1], xs[|xs| - 1]) else prev
  }

  /** The global best fitness never rises and ends at or below every
      agent's fitness. */
  lemma {:induction false} GlobalBestIsMinimum(fits: seq<real>, xs: seq<seq<real>>, gfit: real, g: seq<real>)
    requires |fits| == |xs|
    ensures GlobalBest(fits, xs, gfit, g).0 <= gfit
    ensures forall k :: 0 <= k < |fits| ==> GlobalBest(fits, xs, gfit, g).0 <= fits[k]
  {
    if |fits| > 0 {
      var fs, ys := fits[..|fits| - 1], xs[..|xs| - 1];
      GlobalBestIsMinimum(fs, ys, gfit, g);
      assert forall k :: 0 <= k < |fs| ==> fs[k] == fits[k];
    }
  }

  /** The global best either stays what it was, or is the fitness and the
      position of the first agent that attains the minimum. */
  lemma {:induction false} GlobalBestSource(fits: seq<real>, xs: seq<seq<real>>, gfit: real, g: seq<real>)
    requires |fits| == |xs|
    ensures GlobalBest(fits, xs, gfit, g).0 == gfit ==> GlobalBest(fits, xs, gfit, g).1 == g
    ensures GlobalBest(fits, xs, gfit, g).0 < gfit ==>
      exists k :: 0 <= k < |fits| && GlobalBest(fits, xs, gfit, g) == (fits[k], xs[k])
        && forall j :: 0 <= j < k ==> fits[j] > fits[k]
  {
    if |fits| > 0 {
      var fs, ys := fits[..|fits| - 1], xs[..|xs| - 1];
      var prev := GlobalBest(fs, ys, gfit, g);
      GlobalBestSource(fs, ys, gfit, g);
      GlobalBestIsMinimum(fs, ys, gfit, g);
      var last := |fits| - 1;
      if fits[last] < prev.0 {
        assert forall j :: 0 <= j < last ==> fits[j] == fs[j];
        assert forall j :: 0 <= j < last ==> fits[j] > fits[last];
      } else if prev.0 < gfit {
        var k :| 0 <= k < |fs| && prev == (fs[k], ys[k]) && forall j :: 0 <= j < k ==> fs[j] > fs[k];
        assert fits[k] == fs[k] && xs[k] == ys[k];
        assert forall j :: 0 <= j < k ==> fits[j] == fs[j];
      }
    }
  }

  /** The fitnesses of a pool. */
  ghost function Fits(pool: seq<Agent>): (r: seq<real>)
    reads pool
    ensures |r| == |pool| && forall k :: 0 <= k < |pool| ==> r[k] == pool[k].fit
  {
    seq(|pool|, k requires 0 <= k < |pool| reads pool => pool[k].fit)
  }

  /** The positions of a pool. */
  ghost function Positions(pool: seq<Agent>): (r: seq<seq<real>>)
    reads set k | 0 <= k < |pool| :: pool[k].x
    ensures |r| == |pool| && forall k :: 0 <= k < |pool| ==> r[k] == pool[k].x[..]
  {
    seq(|pool|, k requires 0 <= k < |pool| reads set k | 0 <= k < |pool| :: pool[k].x => pool[k].x[..])
  }

  /** The personal best positions of a pool (empty where there is none). */
  ghost function Bests(pool: seq<Agent>): (r: seq<seq<real>>)
    reads set k | 0 <= k < |pool| && pool[k].xl != null :: pool[k].xl
    ensures |r| == |pool| && forall k :: 0 <= k < |pool| && pool[k].xl != null ==> r[k] == pool[k].xl[..]
  {
    seq(|pool|, k requires 0 <= k < |pool|
      reads set k | 0 <= k < |pool| && pool[k].xl != null :: pool[k].xl
      => if pool[k].xl != null then pool[k].xl[..] else [])
  }

  /** The techniques whose identifiers EvaluateSearchSpace evaluates. */
  predicate Evaluated(optId: int)
  {
    Decode(optId).Some? && Decode(optId).value in {PSO, BA, FPA, FA, GA}
  }

  /** The search space s as a set, empty when s is null. */
  function Present(s: SearchSpace?): set<SearchSpace>
  {
    if s != null then {s} else {}
  }

  /** The personal best buffers of a pool. */
  ghost function Personal(pool: seq<Agent>): set<object>
  {
    set k | 0 <= k < |pool| && pool[k].xl != null :: pool[k].xl as object
  }

  /** EvaluateSearchSpace.  For particle swarm, bats, flower pollination,
      fireflies and the genetic algorithm every agent i, in order, is
      evaluated once: its fitness becomes Improved(f, fit); for particle
      swarm its personal best position becomes x exactly when f beat the old
      fitness; and the global best ends as GlobalBest over the new fitnesses
      and the positions.  Any other identifier (cuckoo search, genetic
      programming, an unknown one) changes nothing.  A missing search space
      terminates the process. */
  method EvaluateSearchSpace(s: SearchSpace?, optId: int, Evaluate: seq<real> -> real) returns (exited: bool)
    requires s != null && Evaluated(optId) ==> s.VectorValid()
    requires s != null && Decode(optId) == Some(PSO) ==> forall k :: 0 <= k < |s.a| ==> s.a[k].xl != null
    modifies Present(s)`gfit, if s != null && s.g != null then {s.g} else {}
    modifies (if s != null then s.a else [])`fit, if s != null then Personal(s.a) else {}
    ensures exited <==> s == null
    ensures s != null && !Evaluated(optId) ==> s.gfit == old(s.gfit) && Fits(s.a) == old(Fits(s.a))
    ensures s != null && !Evaluated(optId) && s.g != null ==> s.g[..] == old(s.g[..])
    ensures s != null && Evaluated(optId) ==>
      (forall k :: 0 <= k < |s.a| ==> s.a[k].fit == Improved(Evaluate(s.a[k].x[..]), old(s.a[k].fit)))
      && s.g != null
      && (s.gfit, s.g[..]) == GlobalBest(Fits(s.a), Positions(s.a), old(s.gfit), old(s.g[..]))
    ensures s != null ==> forall k :: 0 <= k < |s.a| && s.a[k].xl != null ==>
      s.a[k].xl[..] ==
        if Decode(optId) == Some(PSO) && Evaluate(s.a[k].x[..]) < old(s.a[k].fit) then s.a[k].x[..]
        else old(s.a[k].xl[..])
  {
    if s == null {
      return true;
    }
    exited := false;
    if !Evaluated(optId) {
      return;
    }
    EvaluatePass(s, optId, Evaluate);
  }

  /** EvaluateSearchSpace on a search space and a technique it evaluates. */
  method EvaluatePass(s: SearchSpace, optId: int, Evaluate: seq<real> -> real)
    requires Evaluated(optId) && s.VectorValid()
    requires Decode(optId) == Some(PSO) ==> forall k :: 0 <= k < |s.a| ==> s.a[k].xl != null
    modifies s`gfit, s.g, s.a`fit, Personal(s.a)
    ensures forall k :: 0 <= k < |s.a| ==> s.a[k].fit == Improved(Evaluate(s.a[k].x[..]), old(s.a[k].fit))
    ensures s.g != null && (s.gfit, s.g[..]) == GlobalBest(Fits(s.a), Positions(s.a), old(s.gfit), old(s.g[..]))
    ensures forall k :: 0 <= k < |s.a| && s.a[k].xl != null ==>
      s.a[k].xl[..] ==
        if Decode(optId) == Some(PSO) && Evaluate(s.a[k].x[..]) < old(s.a[k].fit) then s.a[k].x[..]
        else old(s.a[k].xl[..])
  {
    VectorSeparation(s);
    if optId == PSO_ID {
      EvaluateSwarm(s, Evaluate);
    } else {
      EvaluateAgents(s, Evaluate);
    }
  }

  /** The agent's buffers have their length and the global best buffer g
      is none of them. */
  ghost predicate Writable(a: Agent, g: array<real>)
  {
    g.Length == a.x.Length && g != a.x && (a.xl != null ==> a.xl.Length == a.x.Length && a.xl != a.x && a.xl != g)
  }

  /** The part of Agent.Disjoint the evaluation loops write through: two
      different agents whose position and personal best buffers are all
      different.  VectorSeparation derives it from Disjoint. */
  ghost predicate BuffersApart(a: Agent, b: Agent)
  {
    a != b && a.x != b.x && (b.xl != null ==> a.x != b.xl && a.xl != b.xl)
  }

  /** What the loops of EvaluateSearchSpace write through is kept apart:
      m agents, pairwise distinct and sharing no buffer, and a global best
      buffer that is nobody's.  It is the slice of VectorValid the loops
      need, stated without the bounds so that their frames stay small. */
  ghost predicate Separated(s: SearchSpace)
  {
    s.g != null && |s.a| == s.m
    && (forall k :: 0 <= k < |s.a| ==> Writable(s.a[k], s.g))
    && (forall k, j :: 0 <= k < |s.a| && 0 <= j < |s.a| && k != j ==> BuffersApart(s.a[k], s.a[j]))
  }

  /** A space built for a vector technique is separated. */
  lemma VectorSeparation(s: SearchSpace)
    requires s.VectorValid()
    ensures Separated(s)
  {
    forall k, j | 0 <= k < |s.a| && 0 <= j < |s.a| && k != j
      ensures BuffersApart(s.a[k], s.a[j])
    {
      assert s.a[k].Disjoint(s.a[j]);
    }
  }

  /** The loop of EvaluateSearchSpace for bats, flower pollination,
      fireflies and the genetic algorithm. */
  method EvaluateAgents(s: SearchSpace, Evaluate: seq<real> -> real)
    requires Separated(s)
    modifies s`gfit, s.g, s.a`fit
    ensures forall k :: 0 <= k < |s.a| ==> s.a[k].fit == Improved(Evaluate(s.a[k].x[..]), old(s.a[k].fit))
    ensures (s.gfit, s.g[..]) == GlobalBest(Fits(s.a), Positions(s.a), old(s.gfit), old(s.g[..]))
    ensures forall k :: 0 <= k < |s.a| && s.a[k].xl != null ==> s.a[k].xl[..] == old(s.a[k].xl[..])
  {
    ghost var xs, fits0 := Positions(s.a), Fits(s.a);
    ghost var fs := Evaluations(Evaluate, xs);
    ghost var gfit0, g0 := s.gfit, s.g[..];
    ghost var fits: seq<real> := [];
    var i := 0;
    while i < s.m
      invariant PassInv(s, fs, xs, fits0, gfit0, g0, fits, i)
    {
      fits := AgentStep(s, Evaluate, fs, xs, fits0, gfit0, g0, fits, i);
      i := i + 1;
    }
    PassDone(s, Evaluate, fs, xs, fits0, gfit0, g0, fits, i);
  }

  /** The loop of EvaluateSearchSpace for particle swarm: an agent that
      improves also copies its position into its personal best. */
  method EvaluateSwarm(s: SearchSpace, Evaluate: seq<real> -> real)
    requires Separated(s) && forall k :: 0 <= k < |s.a| ==> s.a[k].xl != null
    modifies s`gfit, s.g, s.a`fit, Personal(s.a)
    ensures forall k :: 0 <= k < |s.a| ==> s.a[k].fit == Improved(Evaluate(s.a[k].x[..]), old(s.a[k].fit))
    ensures (s.gfit, s.g[..]) == GlobalBest(Fits(s.a), Positions(s.a), old(s.gfit), old(s.g[..]))
    ensures forall k :: 0 <= k < |s.a| ==>
      s.a[k].xl[..] == if Evaluate(s.a[k].x[..]) < old(s.a[k].fit) then s.a[k].x[..] else old(s.a[k].xl[..])
  {
    ghost var xs, fits0, best0 := Positions(s.a), Fits(s.a), Bests(s.a);
    ghost var fs := Evaluations(Evaluate, xs);
    ghost var gfit0, g0 := s.gfit, s.g[..];
    ghost var fits: seq<real> := [];
    var i := 0;
    while i < s.m
      invariant PassInv(s, fs, xs, fits0, gfit0, g0, fits, i)
      invariant BestInv(s, fs, xs, fits0, best0, i)
    {
      fits := SwarmStep(s, Evaluate, fs, xs, fits0, best0, gfit0, g0, fits, i);
      i := i + 1;
    }
    PassDone(s, Evaluate, fs, xs, fits0, gfit0, g0, fits, i);
  }

  /** The values of Evaluate at the positions xs. */
  ghost function Evaluations(Evaluate: seq<real> -> real, xs: seq<seq<real>>): (fs: seq<real>)
    ensures |fs| == |xs| && forall k :: 0 <= k < |xs| ==> fs[k] == Evaluate(xs[k])
  {
    seq(|xs|, k requires 0 <= k < |xs| => Evaluate(xs[k]))
  }

  /** The state of both loops after the first i agents have been visited,
      against the positions xs, their values fs, the fitnesses fits0 and the
      global best (gfit0, g0) they started from: the visited agents'
      fitnesses fits are improved, the others untouched, the positions
      unchanged, and the global best is GlobalBest over the visited agents. */
  ghost predicate PassInv(s: SearchSpace, fs: seq<real>, xs: seq<seq<real>>,
                          fits0: seq<real>, gfit0: real, g0: seq<real>, fits: seq<real>, i: int)
    reads s`gfit, s.g, s.a, set k | 0 <= k < |s.a| :: s.a[k].x
  {
    0 <= i <= |s.a| == |xs| == |fs| == |fits0| && |fits| == i && s.g != null
    && (forall k :: 0 <= k < |s.a| ==> s.a[k].x[..] == xs[k])
    && (forall k :: 0 <= k < i ==> s.a[k].fit == fits[k] == Improved(fs[k], fits0[k]))
    && (forall k :: i <= k < |s.a| ==> s.a[k].fit == fits0[k])
    && (s.gfit, s.g[..]) == GlobalBest(fits, xs[..i], gfit0, g0)
  }

  /** The personal bests of the particle swarm loop after the first i
      agents: a visited agent that improved holds its position, every other
      one keeps its old personal best best0. */
  ghost predicate BestInv(s: SearchSpace, fs: seq<real>, xs: seq<seq<real>>,
                          fits0: seq<real>, best0: seq<seq<real>>, i: int)
    reads s.a, set k | 0 <= k < |s.a| && s.a[k].xl != null :: s.a[k].xl
  {
    (forall k :: 0 <= k < |s.a| ==> s.a[k].xl != null) && BestsAfter(Bests(s.a), fs, xs, fits0, best0, i)
  }

  /** BestInv on the personal bests b as values. */
  ghost predicate BestsAfter(b: seq<seq<real>>, fs: seq<real>, xs: seq<seq<real>>,
                             fits0: seq<real>, best0: seq<seq<real>>, i: int)
  {
    |b| == |fs| == |xs| == |fits0| == |best0|
    && forall k :: 0 <= k < |b| ==> b[k] == if k < i && fs[k] < fits0[k] then xs[k] else best0[k]
  }

  /** Once every agent has been visited, PassInv is the postcondition. */
  lemma PassDone(s: SearchSpace, Evaluate: seq<real> -> real, fs: seq<real>, xs: seq<seq<real>>,
                 fits0: seq<real>, gfit0: real, g0: seq<real>, fits: seq<real>, i: int)
    requires PassInv(s, fs, xs, fits0, gfit0, g0, fits, i) && i == |s.a| && fs == Evaluations(Evaluate, xs)
    ensures s.g != null
    ensures forall k :: 0 <= k < |s.a| ==> s.a[k].fit == Improved(Evaluate(s.a[k].x[..]), fits0[k])
    ensures (s.gfit, s.g[..]) == GlobalBest(Fits(s.a), Positions(s.a), gfit0, g0)
  {
    assert xs[..i] == xs;
    assert fits == Fits(s.a);
    assert xs == Positions(s.a);
  }

  /** One iteration of the loop for bats, flower pollination, fireflies
      and the genetic algorithm. */
  method AgentStep(s: SearchSpace, Evaluate: seq<real> -> real, ghost fs: seq<real>, ghost xs: seq<seq<real>>,
                   ghost fits0: seq<real>, ghost gfit0: real, ghost g0: seq<real>, ghost fits: seq<real>, i: int)
    returns (ghost fits': seq<real>)
    requires Separated(s) && PassInv(s, fs, xs, fits0, gfit0, g0, fits, i) && i < |s.a|
    requires fs == Evaluations(Evaluate, xs)
    modifies s`gfit, s.g, {s.a[i]}`fit
    ensures PassInv(s, fs, xs, fits0, gfit0, g0, fits', i + 1)
  {
    EvaluateAgent(s, i, Evaluate);
    GlobalBestStep(fits, xs, i, s.a[i].fit, gfit0, g0);
    fits' := fits + [s.a[i].fit];
  }

  /** One iteration of the particle swarm loop. */
  method SwarmStep(s: SearchSpace, Evaluate: seq<real> -> real, ghost fs: seq<real>, ghost xs: seq<seq<real>>,
                   ghost fits0: seq<real>, ghost best0: seq<seq<real>>, ghost gfit0: real, ghost g0: seq<real>,
                   ghost fits: seq<real>, i: int)
    returns (ghost fits': seq<real>)
    requires Separated(s) && i < |s.a| && fs == Evaluations(Evaluate, xs)
    requires PassInv(s, fs, xs, fits0, gfit0, g0, fits, i) && BestInv(s, fs, xs, fits0, best0, i)
    modifies s`gfit, s.g, {s.a[i]}`fit, s.a[i].xl
    ensures PassInv(s, fs, xs, fits0, gfit0, g0, fits', i + 1)
    ensures BestInv(s, fs, xs, fits0, best0, i + 1)
  {
    ghost var b := Bests(s.a);
    EvaluateParticle(s, i, Evaluate);
    BestStep(b, Bests(s.a), fs, xs, fits0, best0, i);
    GlobalBestStep(fits, xs, i, s.a[i].fit, gfit0, g0);
    fits' := fits + [s.a[i].fit];
  }

  /** Visiting agent i keeps BestsAfter when its personal best follows
      its improvement and no other personal best moves. */
  lemma BestStep(b: seq<seq<real>>, b': seq<seq<real>>, fs: seq<real>, xs: seq<seq<real>>,
                 fits0: seq<real>, best0: seq<seq<real>>, i: nat)
    requires BestsAfter(b, fs, xs, fits0, best0, i) && i < |b| == |b'|
    requires b'[i] == if fs[i] < fits0[i] then xs[i] else b[i]
    requires forall k :: 0 <= k < |b| && k != i ==> b'[k] == b[k]
    ensures BestsAfter(b', fs, xs, fits0, best0, i + 1)
  {
  }

  /** Visiting one more agent. */
  lemma GlobalBestSnoc(fits: seq<real>, xs: seq<seq<real>>, f: real, x: seq<real>, gfit: real, g: seq<real>)
    requires |fits| == |xs|
    ensures var prev := GlobalBest(fits, xs, gfit, g);
      GlobalBest(fits + [f], xs + [x], gfit, g) == if f < prev.0 then (f, x) else prev
  {
    assert (fits + [f])[..|fits|] == fits;
    assert (xs + [x])[..|xs|] == xs;
  }

  /** Visiting agent i after the first i. */
  lemma GlobalBestStep(fits: seq<real>, xs: seq<seq<real>>, i: nat, f: real, gfit: real, g: seq<real>)
    requires |fits| == i < |xs|
    ensures var prev := GlobalBest(fits, xs[..i], gfit, g);
      GlobalBest(fits + [f], xs[..i + 1], gfit, g) == if f < prev.0 then (f, xs[i]) else prev
  {
    assert xs[..i] + [xs[i]] == xs[..i + 1];
    GlobalBestSnoc(fits, xs[..i], f, xs[i], gfit, g);
  }

  /** The global best step of EvaluateSearchSpace's loops: an agent
      strictly better than the global best replaces it. */
  method UpdateGlobalBest(s: SearchSpace, agent: Agent)
    requires s.g != null && Writable(agent, s.g)
    modifies s`gfit, s.g
    ensures (s.gfit, s.g[..]) ==
      if agent.fit < old(s.gfit) then (agent.fit, agent.x[..]) else (old(s.gfit), old(s.g[..]))
  {
    if agent.fit < s.gfit {
      s.gfit := agent.fit;
      CopyBuffer(s.g, agent.x);
    }
  }

  /** Evaluating agent i: its fitness improves, the global best follows,
      and no other agent and no position changes. */
  method EvaluateAgent(s: SearchSpace, i: nat, Evaluate: seq<real> -> real)
    requires Separated(s) && i < |s.a|
    modifies s`gfit, s.g, {s.a[i]}`fit
    ensures s.a[i].fit == Improved(Evaluate(s.a[i].x[..]), old(s.a[i].fit))
    ensures (s.gfit, s.g[..]) ==
      if s.a[i].fit < old(s.gfit) then (s.a[i].fit, s.a[i].x[..]) else (old(s.gfit), old(s.g[..]))
    ensures forall k :: 0 <= k < |s.a| ==> s.a[k].x[..] == old(s.a[k].x[..])
    ensures forall k :: 0 <= k < |s.a| && k != i ==> s.a[k].fit == old(s.a[k].fit)
  {
    var agent := s.a[i];
    var f := Evaluate(agent.x[..]);
    if f < agent.fit {
      agent.fit := f;
    }
    UpdateGlobalBest(s, agent);
  }

  /** Evaluating particle i: as EvaluateAgent, and its personal best
      becomes its position when it improved; no other personal best
      changes. */
  method EvaluateParticle(s: SearchSpace, i: nat, Evaluate: seq<real> -> real)
    requires Separated(s) && i < |s.a| && s.a[i].xl != null
    modifies s`gfit, s.g, {s.a[i]}`fit, s.a[i].xl
    ensures s.a[i].fit == Improved(Evaluate(s.a[i].x[..]), old(s.a[i].fit))
    ensures s.a[i].xl[..] == if Evaluate(s.a[i].x[..]) < old(s.a[i].fit) then s.a[i].x[..] else old(s.a[i].xl[..])
    ensures (s.gfit, s.g[..]) ==
      if s.a[i].fit < old(s.gfit) then (s.a[i].fit, s.a[i].x[..]) else (old(s.gfit), old(s.g[..]))
    ensures forall k :: 0 <= k < |s.a| ==> s.a[k].x[..] == old(s.a[k].x[..])
    ensures forall k :: 0 <= k < |s.a| && k != i ==> s.a[k].fit == old(s.a[k].fit)
    ensures forall k :: 0 <= k < |s.a| && k != i && s.a[k].xl != null ==> s.a[k].xl[..] == old(s.a[k].xl[..])
  {
    var agent := s.a[i];
    var f := Evaluate(agent.x[..]);
    if f < agent.fit {
      agent.fit := f;
      CopyBuffer(agent.xl, agent.x);
    }
    UpdateGlobalBest(s, agent);
  }
}
