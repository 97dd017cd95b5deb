/** excursor/core/_process_39.py: the Python 3.9 draft of the runner in
    _process.py. It negotiates and drains as that one does, but neither
    defaults `env` nor passes it to the child. */
module TaskProcess39 {
  import opened Wrappers
  import opened Text
  import opened Command
  import opened Streams
  import opened Pipes
  import TaskProcess

  class Run {
    var cmd: string
    var args: seq<string>
    var stdin: Stdio
    var stdout: Stdio
    var stderr: Stdio
    var shell: bool
    var cwd: Option<string>
    var bufsize: int
    var text: Option<bool>
    var sudo: bool
    var output: string
    var env: Option<Env>

    /** The dataclass constructor followed by `__post_init__`, which leaves
        `env` as given. */
    constructor (cmd: string, args: seq<string> := [], stdin: Stdio := NoStream,
                 stdout: Stdio := PIPE, stderr: Stdio := PIPE, shell: bool := false,
                 cwd: Option<string> := None, text: Option<bool> := None,
                 sudo: bool := false, output: string := "", env: Option<Env> := None)
      ensures this.cmd == cmd && this.args == args && this.cwd == cwd && this.output == output
      ensures this.stdin == stdin && this.stdout == stdout && this.stderr == stderr
      ensures this.text == text && bufsize == 0
      ensures this.sudo == DeriveSudo(cmd, sudo) && this.shell == DeriveShell(cmd, shell)
      ensures this.env == env
    {
      this.cmd := cmd;
      this.args := args;
      this.stdin := stdin;
      this.stdout := stdout;
      this.stderr := stderr;
      this.cwd := cwd;
      this.bufsize := 0;
      this.text := text;
      this.output := output;
      this.sudo := DeriveSudo(cmd, sudo);
      this.shell := DeriveShell(cmd, shell);
      this.env := env;
    }

    /** `__call__`: what `_run_shell` or `_run_exec` start the child with.
        The `env` field is never handed over: the child inherits the
        parent's environment whatever `env` holds. */
    function Call(): (r: Invocation)
      reads this`cmd, this`args, this`shell, this`sudo, this`cwd
      ensures r.Shell? <==> shell
      ensures r.cwd == cwd && r.env == None
      ensures r.Exec? ==> Words(r.argv) == (if sudo then Escalation else []) + [cmd] + args
      ensures r.Exec? ==> r.argv == ExecArgv(cmd, args, sudo)
      ensures r.Shell? ==> r.line == ShellLine(cmd, args, sudo)
      ensures r.Shell? && sudo ==> StartsWith(r.line, "sudo -S -k ")
      ensures r.Shell? && !sudo ==> r.line == Join(" ", [cmd] + args)
    {
      if shell then Shell(ShellLine(cmd, args, sudo), cwd, None)
      else Exec(ExecArgv(cmd, args, sudo), cwd, None)
    }

    /** `_read_stream`: every line of the chosen stream, in order, until its
        end; nothing when the child has no such pipe. */
    method ReadStream(child: Child, stream: TaskProcess.StreamName)
      requires child.Valid()
      modifies this`output, child`outPos, child`errPos
      ensures child.Valid()
      ensures stream == TaskProcess.Stdout ==>
        && child.errPos == old(child.errPos)
        && output == old(output) + (if child.hasStdout then Concat(old(child.OutRest())) else "")
        && child.outPos == (if child.hasStdout then |child.out| else old(child.outPos))
      ensures stream == TaskProcess.Stderr ==>
        && child.outPos == old(child.outPos)
        && output == old(output) + (if child.hasStderr then Concat(old(child.ErrRest())) else "")
        && child.errPos == (if child.hasStderr then |child.err| else old(child.errPos))
    {
      if stream == TaskProcess.Stdout {
        if child.hasStdout {
          ReadOut(child);
        }
      } else if child.hasStderr {
        ReadErr(child);
      }
    }

    /** `_read_stream`'s loop on stdout. */
    method ReadOut(child: Child)
      requires child.Valid() && child.hasStdout
      modifies this`output, child`outPos
      ensures child.Valid() && child.outPos == |child.out|
      ensures output == old(output) + Concat(old(child.OutRest()))
    {
      ghost var start := output;
      ghost var op := child.outPos;
      while !child.OutAtEof()
        invariant child.Valid() && op <= child.outPos
        invariant output == start + Concat(child.out[op..child.outPos])
        decreases |child.out| - child.outPos
      {
        ghost var k := child.outPos;
        ConcatSlice(child.out, op, k);
        var line := child.ReadOutLine();
        assert line == child.out[k] && child.outPos == k + 1;
        output := output + line;
      }
      assert child.out[op..child.outPos] == old(child.OutRest());
    }

    /** `_read_stream`'s loop on stderr. */
    method ReadErr(child: Child)
      requires child.Valid() && child.hasStderr
      modifies this`output, child`errPos
      ensures child.Valid() && child.errPos == |child.err|
      ensures output == old(output) + Concat(old(child.ErrRest()))
    {
      ghost var start := output;
      ghost var ep := child.errPos;
      while !child.ErrAtEof()
        invariant child.Valid() && ep <= child.errPos
        invariant output == start + Concat(child.err[ep..child.errPos])
        decreases |child.err| - child.errPos
      {
        ghost var k := child.errPos;
        ConcatSlice(child.err, ep, k);
        var line := child.ReadErrLine();
        assert line == child.err[k] && child.errPos == k + 1;
        output := output + line;
      }
      assert child.err[ep..child.errPos] == old(child.ErrRest());
    }

    /** The credential step of `_get_output`: its `while True` always leaves
        in its first pass, so it is one step here. */
    method Negotiate(child: Child, pw: string) returns (r: Outcome<ProcessError>)
      requires sudo && child.Valid()
      modifies child`errPos, child`written
      ensures child.Valid()
      ensures var s := TaskProcess.GetOutputSpec(sudo, Some(pw), child.hasStdin, child.hasStdout, child.hasStderr,
                                     old(child.OutRest()), old(child.ErrRest()));
        && (r.Fail? <==> s.result.Fail?)
        && (r.Fail? ==> r == s.result)
        && child.written == old(child.written) + s.written
        && child.errPos == old(child.errPos) + (if r.Fail? then s.errRead
                           else if child.hasStderr then 1 else 0)
    {
      if !child.hasStderr {
        return Pass;
      }
      var frag := child.ReadErrUntil();
      if frag.None? {
        return Fail(IncompleteRead);
      }
      // A fragment that starts with "[sudo]" is only printed.
      if !child.hasStdin {
        return Fail(NoStdin);
      }
      child.Write(pw + "\n");
      return Pass;
    }

    /** The two drain tasks of `_get_output`, stdout first. */
    method DrainBoth(child: Child)
      requires child.Valid()
      modifies this`output, child`outPos, child`errPos
      ensures child.Valid()
      ensures var s := TaskProcess.Drains(child.hasStdout, child.hasStderr, old(child.OutRest()), old(child.ErrRest()), [], 0);
        && output == old(output) + s.output
        && child.outPos == old(child.outPos) + s.outRead
        && child.errPos == old(child.errPos) + s.errRead
    {
      ReadStream(child, TaskProcess.Stdout);
      ReadStream(child, TaskProcess.Stderr);
    }

    /** `_get_output`: the credential step, then the stdout drain and the
        stderr drain, both run to the end before it returns. */
    method GetOutput(child: Child, pw: Option<string>) returns (r: Outcome<ProcessError>)
      requires child.Valid()
      modifies this`output, child`outPos, child`errPos, child`written
      ensures child.Valid()
      ensures var s := TaskProcess.GetOutputSpec(sudo, pw, child.hasStdin, child.hasStdout, child.hasStderr,
                                     old(child.OutRest()), old(child.ErrRest()));
        && r == s.result
        && output == old(output) + s.output
        && child.written == old(child.written) + s.written
        && child.outPos == old(child.outPos) + s.outRead
        && child.errPos == old(child.errPos) + s.errRead
    {
      ghost var err0 := child.ErrRest();
      if sudo && pw.Some? {
        r := Negotiate(child, pw.value);
        if r.Fail? {
          return;
        }
        assert child.hasStderr ==> child.ErrRest() == err0[1..];
      } else if sudo {
        return Fail(MissingPassword);
      }
      DrainBoth(child);
      r := Pass;
    }

    /** `run`: read the child's output, then apply the exit code check. */
    method Execute(child: Child, pw: Option<string>, throw: bool) returns (r: Outcome<ProcessError>)
      requires child.Valid()
      modifies this`output, child`outPos, child`errPos, child`written
      ensures var s := TaskProcess.GetOutputSpec(sudo, pw, child.hasStdin, child.hasStdout, child.hasStderr,
                                     old(child.OutRest()), old(child.ErrRest()));
        && r == (if s.result.Fail? then s.result else ExitCheck(throw, child.returncode))
        && output == old(output) + s.output
        && child.written == old(child.written) + s.written
    {
      r := GetOutput(child, pw);
      if r.Pass? {
        r := ExitCheck(throw, child.returncode);
      }
    }
  }
}
