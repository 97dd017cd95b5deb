/** excursor/core/_process.py: the `Run` command runner that answers the
    first credential fragment on stderr whatever it says, then drains stdout
    and stderr each to its end, and passes its own environment to the
    child. */
module TaskProcess {
  import opened Wrappers
  import opened Text
  import opened Command
  import opened Streams
  import opened Pipes
  import Process

  /** The `Literal["stdout", "stderr"]` argument of `_read_stream`. */
  datatype StreamName = Stdout | Stderr

  /** Both drains, each to the end of its stream; a missing pipe is skipped.
      They succeed, and append every line of each present stream, stdout's
      before stderr's. */
  function Drains(hasStdout: bool, hasStderr: bool, out: seq<string>, err: seq<string>,
                  written: seq<string>, skipped: nat): (s: Session)
    ensures s.result == Pass && s.written == written
    ensures s.output == Concat((if hasStdout then out else []) + (if hasStderr then err else []))
    ensures s.outRead == (if hasStdout then |out| else 0)
    ensures s.errRead == skipped + (if hasStderr then |err| else 0)
  {
    ConcatAppend(if hasStdout then out else [], if hasStderr then err else []);
    Session(Pass, written,
      (if hasStdout then Concat(out) else "") + (if hasStderr then Concat(err) else ""),
      if hasStdout then |out| else 0,
      skipped + (if hasStderr then |err| else 0))
  }

  /** What `_get_output` does with a child whose pipes are present or not and
      whose stdout and stderr hold `out` and `err`. With `sudo` and a password
      the first fragment is read and the password written, whatever that
      fragment says; a missing stderr skips this, a missing stdin raises. */
  function GetOutputSpec(sudo: bool, pw: Option<string>, hasStdin: bool, hasStdout: bool,
                         hasStderr: bool, out: seq<string>, err: seq<string>): (s: Session)
    ensures s.written ==
      if sudo && pw.Some? && hasStderr && |err| > 0 && hasStdin then [pw.value + "\n"] else []
    ensures s.result.Fail? <==>
      sudo && (pw.None? || (hasStderr && (|err| == 0 || !hasStdin)))
    ensures s.result.Fail? ==> s.output == "" && s.outRead == 0
    ensures s.result.Pass? ==> s.outRead == (if hasStdout then |out| else 0)
    ensures s.result.Pass? && hasStderr ==> s.errRead == |err|
    ensures s.result.Pass? && !hasStderr ==> s.errRead == 0
    ensures s.result.Pass? ==>
      s.output == (if hasStdout then Concat(out) else "")
                  + (if hasStderr then Concat(err[if sudo then 1 else 0..]) else "")
  {
    if sudo && pw.Some? then
      if !hasStderr then Drains(hasStdout, hasStderr, out, err, [], 0)
      else if |err| == 0 then Session(Fail(IncompleteRead), [], "", 0, 0)
      else if !hasStdin then Session(Fail(NoStdin), [], "", 0, 1)
      else Drains(hasStdout, hasStderr, out, err[1..], [pw.value + "\n"], 1)
    else if sudo then Session(Fail(MissingPassword), [], "", 0, 0)
    else Drains(hasStdout, hasStderr, out, err, [], 0)
  }

  /** On a child with every pipe, the first fragment is answered and
      everything after it reaches `output`, stdout first. */
  lemma FirstFragmentAnswered(pw: string, out: seq<string>, frag: string, rest: seq<string>)
    ensures GetOutputSpec(true, Some(pw), true, true, true, out, [frag] + rest)
      == Session(Pass, [pw + "\n"], Concat(out) + Concat(rest), |out|, 1 + |rest|)
  {
    assert ([frag] + rest)[1..] == rest;
  }

  /** A fragment that is not the prompt: process.py keeps waiting and fails
      at the end of stderr, this draft answers it with the password. */
  lemma AnswersAnyFragment(pw: string)
    ensures Process.GetOutputSpec(true, Some(pw), [], ["Password: "]).result == Fail(IncompleteRead)
    ensures GetOutputSpec(true, Some(pw), true, true, true, [], ["Password: "]).written == [pw + "\n"]
  {
    assert !StartsWith("Password: ", "[sudo]") by {
      assert "Password: "[0] != "[sudo]"[0];
    }
    assert PromptIndex(["Password: "]) == None by {
      assert ["Password: "][1..] == [];
    }
  }

  /** The output of the two drains run one after the other is one of the
      interleavings two concurrent drains could give: every line of both
      streams, each stream in its own order. */
  lemma {:induction false} DrainsInterleave(out: seq<string>, err: seq<string>)
    ensures Drains(true, true, out, err, [], 0).output == Concat(out + err)
    ensures IsMerge(out + err, out, err)
  {
    ConcatAppend(out, err);
    AppendIsMerge(out, err);
  }

  class Run {
    var cmd: string
    var args: seq<string>
    var stdin: Stdio
    var stdout: Stdio
    var stderr: Stdio
    var shell: bool
    var cwd: Option<string>
    var bufsize: int
    var text: Option<bool>
    var sudo: bool
    var output: string
    var env: Option<Env>

    /** The dataclass constructor followed by `__post_init__`; `environ` is
        the parent's environment, which an unset `env` defaults to. */
    constructor (environ: Env, cmd: string, args: seq<string> := [], stdin: Stdio := NoStream,
                 stdout: Stdio := PIPE, stderr: Stdio := PIPE, shell: bool := false,
                 cwd: Option<string> := None, text: Option<bool> := None,
                 sudo: bool := false, output: string := "", env: Option<Env> := None)
      ensures this.cmd == cmd && this.args == args && this.cwd == cwd && this.output == output
      ensures this.stdin == stdin && this.stdout == stdout && this.stderr == stderr
      ensures this.text == text && bufsize == 0
      ensures this.sudo == DeriveSudo(cmd, sudo) && this.shell == DeriveShell(cmd, shell)
      ensures this.env == if env.None? then Some(environ) else env
    {
      this.cmd := cmd;
      this.args := args;
      this.stdin := stdin;
      this.stdout := stdout;
      this.stderr := stderr;
      this.cwd := cwd;
      this.bufsize := 0;
      this.text := text;
      this.output := output;
      this.sudo := DeriveSudo(cmd, sudo);
      this.shell := DeriveShell(cmd, shell);
      this.env := if env.None? then Some(environ) else env;
    }

    /** `__call__`: what `_run_shell` or `_run_exec` start the child with;
        the runner's environment is passed along. */
    function Call(): (r: Invocation)
      reads this`cmd, this`args, this`shell, this`sudo, this`cwd, this`env
      ensures r.Shell? <==> shell
      ensures r.cwd == cwd && r.env == env
      ensures r.Exec? ==> Words(r.argv) == (if sudo then Escalation else []) + [cmd] + args
      ensures r.Exec? ==> r.argv == ExecArgv(cmd, args, sudo)
      ensures r.Shell? ==> r.line == ShellLine(cmd, args, sudo)
      ensures r.Shell? && sudo ==> StartsWith(r.line, "sudo -S -k ")
      ensures r.Shell? && !sudo ==> r.line == Join(" ", [cmd] + args)
    {
      if shell then Shell(ShellLine(cmd, args, sudo), cwd, env)
      else Exec(ExecArgv(cmd, args, sudo), cwd, env)
    }

    /** `_read_stream`: every line of the chosen stream, in order, until its
        end; nothing when the child has no such pipe. */
    method ReadStream(child: Child, stream: StreamName)
      requires child.Valid()
      modifies this`output, child`outPos, child`errPos
      ensures child.Valid()
      ensures stream == Stdout ==>
        && child.errPos == old(child.errPos)
        && output == old(output) + (if child.hasStdout then Concat(old(child.OutRest())) else "")
        && child.outPos == (if child.hasStdout then |child.out| else old(child.outPos))
      ensures stream == Stderr ==>
        && child.outPos == old(child.outPos)
        && output == old(output) + (if child.hasStderr then Concat(old(child.ErrRest())) else "")
        && child.errPos == (if child.hasStderr then |child.err| else old(child.errPos))
    {
      if stream == Stdout {
        if child.hasStdout {
          ReadOut(child);
        }
      } else if child.hasStderr {
        ReadErr(child);
      }
    }

    /** `_read_stream`'s loop on stdout. */
    method ReadOut(child: Child)
      requires child.Valid() && child.hasStdout
      modifies this`output, child`outPos
      ensures child.Valid() && child.outPos == |child.out|
      ensures output == old(output) + Concat(old(child.OutRest()))
    {
      ghost var start := output;
      ghost var op := child.outPos;
      while !child.OutAtEof()
        invariant child.Valid() && op <= child.outPos
        invariant output == start + Concat(child.out[op..child.outPos])
        decreases |child.out| - child.outPos
      {
        ghost var k := child.outPos;
        ConcatSlice(child.out, op, k);
        var line := child.ReadOutLine();
        assert line == child.out[k] && child.outPos == k + 1;
        output := output + line;
      }
      assert child.out[op..child.outPos] == old(child.OutRest());
    }

    /** `_read_stream`'s loop on stderr. */
    method ReadErr(child: Child)
      requires child.Valid() && child.hasStderr
      modifies this`output, child`errPos
      ensures child.Valid() && child.errPos == |child.err|
      ensures output == old(output) + Concat(old(child.ErrRest()))
    {
      ghost var start := output;
      ghost var ep := child.errPos;
      while !child.ErrAtEof()
        invariant child.Valid() && ep <= child.errPos
        invariant output == start + Concat(child.err[ep..child.errPos])
        decreases |child.err| - child.errPos
      {
        ghost var k := child.errPos;
        ConcatSlice(child.err, ep, k);
        var line := child.ReadErrLine();
        assert line == child.err[k] && child.errPos == k + 1;
        output := output + line;
      }
      assert child.err[ep..child.errPos] == old(child.ErrRest());
    }

    /** The credential step of `_get_output`: its `while True` always leaves
        in its first pass, so it is one step here. */
    method Negotiate(child: Child, pw: string) returns (r: Outcome<ProcessError>)
      requires sudo && child.Valid()
      modifies child`errPos, child`written
      ensures child.Valid()
      ensures var s := GetOutputSpec(sudo, Some(pw), child.hasStdin, child.hasStdout, child.hasStderr,
                                     old(child.OutRest()), old(child.ErrRest()));
        && (r.Fail? <==> s.result.Fail?)
        && (r.Fail? ==> r == s.result)
        && child.written == old(child.written) + s.written
        && child.errPos == old(child.errPos) + (if r.Fail? then s.errRead
                           else if child.hasStderr then 1 else 0)
    {
      if !child.hasStderr {
        return Pass;
      }
      var frag := child.ReadErrUntil();
      if frag.None? {
        return Fail(IncompleteRead);
      }
      // A fragment that starts with "[sudo]" is only printed.
      if !child.hasStdin {
        return Fail(NoStdin);
      }
      child.Write(pw + "\n");
      return Pass;
    }

    /** The two drain tasks of `_get_output`, stdout first. */
    method DrainBoth(child: Child)
      requires child.Valid()
      modifies this`output, child`outPos, child`errPos
      ensures child.Valid()
      ensures var s := Drains(child.hasStdout, child.hasStderr, old(child.OutRest()), old(child.ErrRest()), [], 0);
        && output == old(output) + s.output
        && child.outPos == old(child.outPos) + s.outRead
        && child.errPos == old(child.errPos) + s.errRead
    {
      ReadStream(child, Stdout);
      ReadStream(child, Stderr);
    }

    /** `_get_output`: the credential step, then the stdout drain and the
        stderr drain, both run to the end before it returns. */
    method GetOutput(child: Child, pw: Option<string>) returns (r: Outcome<ProcessError>)
      requires child.Valid()
      modifies this`output, child`outPos, child`errPos, child`written
      ensures child.Valid()
      ensures var s := GetOutputSpec(sudo, pw, child.hasStdin, child.hasStdout, child.hasStderr,
                                     old(child.OutRest()), old(child.ErrRest()));
        && r == s.result
        && output == old(output) + s.output
        && child.written == old(child.written) + s.written
        && child.outPos == old(child.outPos) + s.outRead
        && child.errPos == old(child.errPos) + s.errRead
    {
      ghost var err0 := child.ErrRest();
      if sudo && pw.Some? {
        r := Negotiate(child, pw.value);
        if r.Fail? {
          return;
        }
        assert child.hasStderr ==> child.ErrRest() == err0[1..];
      } else if sudo {
        return Fail(MissingPassword);
      }
      DrainBoth(child);
      r := Pass;
    }

    /** `run`: read the child's output, then apply the exit code check. */
    method Execute(child: Child, pw: Option<string>, throw: bool) returns (r: Outcome<ProcessError>)
      requires child.Valid()
      modifies this`output, child`outPos, child`errPos, child`written
      ensures var s := GetOutputSpec(sudo, pw, child.hasStdin, child.hasStdout, child.hasStderr,
                                     old(child.OutRest()), old(child.ErrRest()));
        && r == (if s.result.Fail? then s.result else ExitCheck(throw, child.returncode))
        && output == old(output) + s.output
        && child.written == old(child.written) + s.written
    {
      r := GetOutput(child, pw);
      if r.Pass? {
        r := ExitCheck(throw, child.returncode);
      }
    }
  }
}
