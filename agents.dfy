/** The agent: one candidate point of the search space, with the fields its
    technique needs (CreateAgent, CopyAgent, CompareForQSort). */
module Agents {
  import opened Common

  class Agent {
    const n: int
    /** decision variables */
    const x: array<real>
    /** velocity; null for genetic programming */
    const v: array?<real>
    /** personal best position; present for particle swarm only */
    const xl: array?<real>
    var fit: real
    var pfit: real

    /** Every present buffer holds n doubles and no two of them alias. */
    ghost predicate Valid()
    {
      n >= 1 && x.Length == n
      && (v != null ==> v.Length == n && v != x)
      && (xl != null ==> xl.Length == n && xl != x && xl != v)
    }

    /** The fields CreateAgent allocates for technique t. */
    ghost predicate FieldsFor(t: Technique)
    {
      (v != null <==> t != GP) && (xl != null <==> t == PSO)
    }

    /** The objects this agent owns. */
    ghost function Repr(): set<object>
    {
      {this, x} + (if v != null then {v as object} else {}) + (if xl != null then {xl as object} else {})
    }

    /** The buffer b is none of this agent's. */
    ghost predicate Apart(b: array<real>)
    {
      b != x && b != v && b != xl
    }

    /** This agent and b are different agents sharing no buffer. */
    ghost predicate Disjoint(b: Agent)
    {
      this != b && Apart(b.x) && (b.v != null ==> Apart(b.v)) && (b.xl != null ==> Apart(b.xl))
    }

    /** The allocation part of CreateAgent for a recognised technique. */
    constructor Alloc(size: int, t: Technique)
      requires size >= 1
      ensures Valid() && FieldsFor(t) && n == size
      ensures fresh(Repr())
      ensures x[..] == Zeros(size)
      ensures v != null ==> v[..] == Zeros(size)
      ensures xl != null ==> xl[..] == Zeros(size)
      ensures fit == DBL_MAX && pfit == DBL_MAX
    {
      n := size;
      fit := DBL_MAX;
      pfit := DBL_MAX;
      x := new real[size](_ => 0.0);
      var vel: array?<real> := null;
      var best: array?<real> := null;
      if t != GP {
        vel := new real[size](_ => 0.0);
      }
      if t == PSO {
        best := new real[size](_ => 0.0);
      }
      v := vel;
      xl := best;
    }
  }

  /** CreateAgent: null for n < 1, a non-positive identifier or an
      unrecognised one; otherwise a fresh agent whose x (and v, xl when
      present) are n zeros and whose fit and pfit are DBL_MAX. */
  method CreateAgent(n: int, optId: int) returns (a: Agent?)
    ensures a == null <==> n < 1 || optId < 1 || Decode(optId).None?
    ensures a != null ==>
      fresh(a.Repr()) && a.Valid() && a.FieldsFor(Decode(optId).value) && a.n == n
      && a.x[..] == Zeros(n)
      && (a.v != null ==> a.v[..] == Zeros(n))
      && (a.xl != null ==> a.xl[..] == Zeros(n))
      && a.fit == DBL_MAX && a.pfit == DBL_MAX
  {
    a := null;
    if n >= 1 && optId >= 1 {
      var tag := Decode(optId);
      if tag.Some? {
        a := new Agent.Alloc(n, tag.value);
      }
    }
  }

  /** memcpy of one buffer into another of the same length. */
  method CopyBuffer(dst: array<real>, src: array<real>)
    requires dst.Length == src.Length && dst != src
    modifies dst
    ensures dst[..] == src[..]
  {
    var j := 0;
    while j < dst.Length
      invariant 0 <= j <= dst.Length
      invariant dst[..j] == src[..j]
    {
      dst[j] := src[j];
      j := j + 1;
      assert dst[..j] == dst[..j - 1] + [dst[j - 1]];
    }
    assert dst[..] == dst[..dst.Length];
  }

  /** CopyAgent.  A null agent terminates the process.  For the five vector
      techniques: a fresh agent with the same n, x and v (and xl for particle
      swarm) and fit, pfit back at DBL_MAX.  For genetic programming the copy
      is created and released again and the result is null.  For an
      unrecognised identifier CreateAgent yields null and the cleanup branch
      hands that null to DestroyAgent, which terminates the process. */
  method CopyAgent(a: Agent?, optId: int) returns (r: Outcome<Agent?>)
    requires a != null ==> a.Valid()
    requires a != null && Decode(optId).Some? && Decode(optId).value != GP ==> a.v != null
    requires a != null && Decode(optId) == Some(PSO) ==> a.xl != null
    ensures r.Exited? <==> a == null || Decode(optId).None?
    ensures a != null && Decode(optId) == Some(GP) ==> r == Returned(null)
    ensures a != null && Decode(optId).Some? && Decode(optId).value != GP ==>
      r.Returned? && r.value != null
      && fresh(r.value.Repr()) && r.value.Valid() && r.value.FieldsFor(Decode(optId).value)
      && r.value.n == a.n && r.value.x[..] == a.x[..] && r.value.v[..] == a.v[..]
      && (Decode(optId) == Some(PSO) ==> r.value.xl[..] == a.xl[..])
      && r.value.fit == DBL_MAX && r.value.pfit == DBL_MAX
  {
    if a == null {
      return Exited;
    }
    var cpy := CreateAgent(a.n, optId);
    match Decode(optId)
    case Some(t) =>
      if t == GP {
        return Returned(null);
      }
      CopyBuffer(cpy.x, a.x);
      CopyBuffer(cpy.v, a.v);
      if t == PSO {
        CopyBuffer(cpy.xl, a.xl);
      }
      return Returned(cpy);
    case None =>
      return Exited;
  }

  /** The qsort comparator on fitness. */
  function CompareForQSort(a: Agent, b: Agent): (r: int)
    reads a, b
    ensures r == -1 <==> a.fit < b.fit
    ensures r == 1 <==> a.fit > b.fit
    ensures r == 0 <==> a.fit == b.fit
  {
    if a.fit < b.fit then -1
    else if a.fit > b.fit then 1
    else 0
  }

  /** Swapping the arguments negates the comparison. */
  lemma CompareAntisymmetric(a: Agent, b: Agent)
    ensures CompareForQSort(a, b) == -CompareForQSort(b, a)
  {
  }

  /** "Not after" is transitive, so the comparator orders agents by fit. */
  lemma CompareTransitive(a: Agent, b: Agent, c: Agent)
    requires CompareForQSort(a, b) <= 0 && CompareForQSort(b, c) <= 0
    ensures CompareForQSort(a, c) <= 0
  {
  }
}
