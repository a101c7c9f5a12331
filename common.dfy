/** Shared vocabulary of the library: technique tags, the double-precision
    bound used as "+infinity" for fitness, and the outcome of an operation
    that may terminate the process. */
module Common {

  datatype Option<T> = None | Some(value: T)

  /** How an operation of the library ends.  `Exited` is the process
      terminating through exit(-1).  `OracleFailed` means the sequence of
      random draws handed to the model ran out or produced an index outside
      the table it selects from.  When there is at least one terminal, and at
      least one constant if CONST is a terminal, the library's generator
      always draws in range, so there this outcome has no counterpart in the
      library.  Over an empty table the library reads or returns an index
      outside it instead. */
  datatype Outcome<T> = Returned(value: T) | Exited | OracleFailed

  /** The techniques whose identifiers the agent and search-space routines
      recognise.  Cuckoo search has an identifier of its own but is not among
      the cases those routines list. */
  datatype Technique = PSO | BA | FPA | FA | GA | GP

  const PSO_ID: int := 1
  const BA_ID: int := 2
  const FPA_ID: int := 3
  const FA_ID: int := 4
  const CS_ID: int := 5
  const GP_ID: int := 6
  const GA_ID: int := 7

  /** The largest finite double, 2^1024 - 2^971. */
  const DBL_MAX: real := 179769313486231570814527423731704356798070567525844996598917476803157260780028538760589558632766878171540458953514382464234321326889464182768467546703537516986049910576551282076245490090389328944075868508455133942304583236903222948165808559332123348274797826204144723168738177180919299881250404026184124858368.0

  function Id(t: Technique): (k: int)
    ensures k >= 1
  {
    match t
    case PSO => PSO_ID
    case BA => BA_ID
    case FPA => FPA_ID
    case FA => FA_ID
    case GA => GA_ID
    case GP => GP_ID
  }

  /** The `switch (opt_id)` shared by the agent and search-space routines:
      the technique an identifier names, or None for the default branch. */
  function Decode(optId: int): (t: Option<Technique>)
    ensures t.Some? ==> Id(t.value) == optId
    ensures t.None? ==> forall k: Technique :: Id(k) != optId
  {
    if optId == PSO_ID then Some(PSO)
    else if optId == BA_ID then Some(BA)
    else if optId == FPA_ID then Some(FPA)
    else if optId == FA_ID then Some(FA)
    else if optId == GA_ID then Some(GA)
    else if optId == GP_ID then Some(GP)
    else None
  }

  lemma DecodeId(t: Technique)
    ensures Decode(Id(t)) == Some(t)
  {
  }

  /** A buffer obtained from calloc: n zeros. */
  function Zeros(n: nat): (z: seq<real>)
    ensures |z| == n && forall j :: 0 <= j < n ==> z[j] == 0.0
  {
    seq(n, _ => 0.0)
  }
}
