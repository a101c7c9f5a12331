/** WaiveComment: skipping the comment that follows each data line of a
    model file.  The file is its contents and a read position. */
module ModelFile {

  /** The position just past the first newline at or after pos, or the end
      of the input when there is none. */
  function LineEnd(input: seq<char>, pos: nat): nat
    requires pos <= |input|
    decreases |input| - pos
  {
    if pos == |input| then pos
    else if input[pos] == '\n' then pos + 1
    else LineEnd(input, pos + 1)
  }

  /** LineEnd skips no newline but the last one it consumes, and it stops
      early only just after a newline. */
  lemma {:induction false} LineEndSkipsOneLine(input: seq<char>, pos: nat)
    requires pos <= |input|
    ensures pos <= LineEnd(input, pos) <= |input|
    ensures forall k :: pos <= k < LineEnd(input, pos) - 1 ==> input[k] != '\n'
    ensures LineEnd(input, pos) < |input| ==> LineEnd(input, pos) > pos && input[LineEnd(input, pos) - 1] == '\n'
    ensures LineEnd(input, pos) == |input| && |input| > pos && input[|input| - 1] != '\n' ==>
      forall k :: pos <= k < |input| ==> input[k] != '\n'
    decreases |input| - pos
  {
    if pos < |input| && input[pos] != '\n' {
      LineEndSkipsOneLine(input, pos + 1);
    }
  }

  /** WaiveComment reads one character, then keeps reading while the last
      character read is not a newline and the end of the file has not been
      hit.  A read at the end of the file fails and sets the end-of-file
      indicator. */
  method WaiveComment(input: seq<char>, pos: nat) returns (next: nat)
    requires pos <= |input|
    ensures next == LineEnd(input, pos)
  {
    var p := pos;
    var c: char := '\0';
    var eof := false;
    if p < |input| {
      c := input[p];
      p := p + 1;
    } else {
      eof := true;
    }
    while c != '\n' && !eof
      invariant pos <= p <= |input|
      invariant eof ==> p == |input|
      invariant LineEnd(input, pos)
             == (if eof then |input| else if p > pos && c == '\n' then p else LineEnd(input, p))
      invariant !eof ==> p > pos && c == input[p - 1]
      decreases |input| - p, !eof
    {
      if p < |input| {
        c := input[p];
        p := p + 1;
      } else {
        eof := true;
      }
    }
    next := p;
  }
}
