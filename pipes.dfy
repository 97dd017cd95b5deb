/** A started child process as the runner sees it: its three pipes, each
    of which may be absent, the chunks its stdout and stderr will deliver,
    what has been written to its stdin, and its return code, which is set or
    not when the runner looks at it. */
module Pipes {
  import opened Wrappers
  import opened Streams

  class Child {
    const out: seq<string>
    const err: seq<string>
    const hasStdin: bool
    const hasStdout: bool
    const hasStderr: bool
    const returncode: Option<int>
    var outPos: nat
    var errPos: nat
    var written: seq<string>

    predicate Valid()
      reads this`outPos, this`errPos
    {
      outPos <= |out| && errPos <= |err|
    }

    constructor (out: seq<string>, err: seq<string>, hasStdin: bool, hasStdout: bool,
                 hasStderr: bool, returncode: Option<int>)
      ensures Valid()
      ensures this.out == out && this.err == err && this.returncode == returncode
      ensures this.hasStdin == hasStdin && this.hasStdout == hasStdout && this.hasStderr == hasStderr
      ensures outPos == 0 && errPos == 0 && written == []
    {
      this.out := out;
      this.err := err;
      this.hasStdin := hasStdin;
      this.hasStdout := hasStdout;
      this.hasStderr := hasStderr;
      this.returncode := returncode;
      outPos := 0;
      errPos := 0;
      written := [];
    }

    /** The stdout chunks not yet read. */
    function OutRest(): seq<string>
      reads this`outPos
      requires outPos <= |out|
    {
      out[outPos..]
    }

    /** The stderr chunks not yet read. */
    function ErrRest(): seq<string>
      reads this`errPos
      requires errPos <= |err|
    {
      err[errPos..]
    }

    /** `proc.stdout.at_eof()` */
    predicate OutAtEof()
      reads this`outPos
    {
      outPos >= |out|
    }

    /** `proc.stderr.at_eof()` */
    predicate ErrAtEof()
      reads this`errPos
    {
      errPos >= |err|
    }

    /** `await proc.stdout.readline()` */
    method ReadOutLine() returns (line: string)
      requires Valid()
      modifies this`outPos
      ensures Valid()
      ensures line == Head(old(OutRest())) && OutRest() == Tail(old(OutRest()))
      ensures outPos == if old(outPos) < |out| then old(outPos) + 1 else old(outPos)
    {
      if outPos < |out| {
        line := out[outPos];
        outPos := outPos + 1;
      } else {
        line := "";
      }
    }

    /** `await proc.stderr.readline()` */
    method ReadErrLine() returns (line: string)
      requires Valid()
      modifies this`errPos
      ensures Valid()
      ensures line == Head(old(ErrRest())) && ErrRest() == Tail(old(ErrRest()))
      ensures errPos == if old(errPos) < |err| then old(errPos) + 1 else old(errPos)
    {
      if errPos < |err| {
        line := err[errPos];
        errPos := errPos + 1;
      } else {
        line := "";
      }
    }

    /** `await proc.stderr.readuntil(b": ")`: the next fragment, or None where
        the stream ends first and `IncompleteReadError` is raised; the
        partial fragment is consumed either way. */
    method ReadErrUntil() returns (frag: Option<string>)
      requires Valid()
      modifies this`errPos
      ensures Valid()
      ensures frag.None? <==> old(errPos) == |err|
      ensures frag.Some? ==> frag.value == err[old(errPos)] && errPos == old(errPos) + 1
      ensures frag.None? ==> errPos == old(errPos)
    {
      if errPos < |err| {
        frag := Some(err[errPos]);
        errPos := errPos + 1;
      } else {
        frag := None;
      }
    }

    /** `proc.stdin.write(data)` */
    method Write(data: string)
      modifies this`written
      ensures written == old(written) + [data]
    {
      written := written + [data];
    }
  }
}
