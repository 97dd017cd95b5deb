/** excursor/core/process_39.py: the Python 3.9 draft of the `Run` command
    runner. It matches process.py except in two places: `is_ok` is an
    if-chain, and the credential branch of `_get_output` can never be taken. */
module Process39 {
  import opened Wrappers
  import opened Seqs
  import opened Text
  import opened Command
  import opened Streams
  import opened Pipes
  import Process

  /** `ProcessResult.is_ok(val, throw)` written as an if-chain. */
  function IsOk(ret: Option<int>, val: int, throw: bool): (r: Result<bool, ProcessError>)
    ensures r == Success(true) <==> ret == Some(val)
    ensures r.Failure? <==> throw && ret.Some? && ret.value != val
    ensures r.Failure? ==> r.error == ExitMismatch(ret.value, val)
  {
    if ret.None? then Success(false)
    else if ret.value != val && throw then Failure(ExitMismatch(ret.value, val))
    else if ret.value != val && !throw then Success(false)
    else Success(true)
  }

  /** The if-chain decides exactly as the `match` of process.py. */
  lemma IsOkMatchesProcess(ret: Option<int>, val: int, throw: bool)
    ensures IsOk(ret, val, throw) == Process.IsOk(ret, val, throw)
  {
  }

  /** What `_get_output` does: with `sudo` and no password it raises before
      reading; otherwise it drains at once, whatever the password. */
  function GetOutputSpec(sudo: bool, pw: Option<string>, out: seq<string>, err: seq<string>): (s: Session)
    ensures s.written == []
    ensures s.result.Fail? <==> sudo && pw.None?
    ensures s.result.Fail? ==> s.result.error == MissingPassword && s.output == "" && s.errRead == 0
    ensures s.result.Pass? ==> s.outRead == |out| && s.errRead == Min(|err|, Rounds(out))
    ensures s.result.Pass? ==> s.output == Alternate(out, err)
  {
    if sudo && pw.None? then Session(Fail(MissingPassword), [], "", 0, 0)
    else Process.Drain(out, err, [], 0)
  }

  /** Apart from a missing password, this draft behaves as process.py does
      without `sudo`: no prompt is awaited even when `sudo` is set. */
  lemma {:induction false} NeverNegotiates(sudo: bool, pw: Option<string>, out: seq<string>, err: seq<string>)
    requires !(sudo && pw.None?)
    ensures GetOutputSpec(sudo, pw, out, err) == Process.GetOutputSpec(false, pw, out, err)
  {
  }

  /** Where process.py answers the prompt, this draft leaves it unanswered
      and copies the prompt into `output` as if it were a line of stderr. */
  lemma PromptEchoed(pw: string)
    ensures GetOutputSpec(true, Some(pw), [], ["[sudo] password: "]).output == "[sudo] password: "
    ensures Process.GetOutputSpec(true, Some(pw), [], ["[sudo] password: "]).written == [pw + "\n"]
  {
    assert StartsWith("[sudo] password: ", "[sudo]");
    assert PromptIndex(["[sudo] password: "]) == Some(0);
  }

  class Run {
    var cmd: string
    var args: seq<string>
    var stdin: Stdio
    var stdout: Stdio
    var stderr: Stdio
    var shell: bool
    var cwd: Option<string>
    /** Set only by `w_cwd`, which writes this attribute rather than `cwd`. */
    var dir: Option<string>
    var bufsize: int
    var text: Option<bool>
    var sudo: bool
    var output: string

    /** The dataclass constructor followed by `__post_init__`. */
    constructor (cmd: string, args: seq<string> := [], stdin: Stdio := NoStream,
                 stdout: Stdio := PIPE, stderr: Stdio := PIPE, shell: bool := false,
                 cwd: Option<string> := None, text: Option<bool> := None,
                 sudo: bool := false, output: string := "")
      ensures this.cmd == cmd && this.args == args && this.cwd == cwd && this.output == output
      ensures this.stdin == stdin && this.stdout == stdout && this.stderr == stderr
      ensures this.text == text && bufsize == 0 && dir == None
      ensures this.sudo == DeriveSudo(cmd, sudo) && this.shell == DeriveShell(cmd, shell)
    {
      this.cmd := cmd;
      this.args := args;
      this.stdin := stdin;
      this.stdout := stdout;
      this.stderr := stderr;
      this.cwd := cwd;
      this.dir := None;
      this.bufsize := 0;
      this.text := text;
      this.output := output;
      this.sudo := DeriveSudo(cmd, sudo);
      this.shell := DeriveShell(cmd, shell);
    }

    /** `w_cmd`: the flags derived from the old command stay as they were. */
    method WCmd(prog: string) returns (r: Run)
      modifies this`cmd
      ensures r == this && cmd == prog
      ensures sudo == old(sudo) && shell == old(shell)
    {
      cmd := prog;
      r := this;
    }

    method WArgs(args: seq<string>) returns (r: Run)
      modifies this`args
      ensures r == this && this.args == args
    {
      this.args := args;
      r := this;
    }

    method WStdin(pipe: Stdio) returns (r: Run)
      modifies this`stdin
      ensures r == this && stdin == pipe
    {
      stdin := pipe;
      r := this;
    }

    method WStdout(pipe: Stdio) returns (r: Run)
      modifies this`stdout
      ensures r == this && stdout == pipe
    {
      stdout := pipe;
      r := this;
    }

    method WStderr(pipe: Stdio) returns (r: Run)
      modifies this`stderr
      ensures r == this && stderr == pipe
    {
      stderr := pipe;
      r := this;
    }

    /** `w_cwd`: the directory lands in `dir`; `cwd`, which the child is
        started in, keeps its value. */
    method WCwd(d: string) returns (r: Run)
      modifies this`dir
      ensures r == this && dir == Some(d) && cwd == old(cwd)
    {
      dir := Some(d);
      r := this;
    }

    method WShell(sh: bool) returns (r: Run)
      modifies this`shell
      ensures r == this && shell == sh
    {
      shell := sh;
      r := this;
    }

    method WBusize(size: int) returns (r: Run)
      modifies this`bufsize
      ensures r == this && bufsize == size
    {
      bufsize := size;
      r := this;
    }

    method WText(txt: bool) returns (r: Run)
      modifies this`text
      ensures r == this && text == Some(txt)
    {
      text := Some(txt);
      r := this;
    }

    /** `build`: an empty command raises; otherwise the runner itself comes
        back untouched. */
    method Build() returns (r: Result<Run, ProcessError>)
      ensures r.Success? <==> cmd != ""
      ensures r.Success? ==> r.value == this
      ensures r.Failure? ==> r.error == EmptyCommand
    {
      if cmd == "" {
        return Failure(EmptyCommand);
      }
      return Success(this);
    }

    /** `__call__`: what `_run_shell` or `_run_exec` start the child with. No
        environment is passed, so the child inherits the parent's. */
    function Call(): (r: Invocation)
      reads this`cmd, this`args, this`shell, this`sudo, this`cwd
      ensures r.Shell? <==> shell
      ensures r.cwd == cwd && r.env == None
      ensures r.Exec? ==> Words(r.argv) == (if sudo then Escalation else []) + [cmd] + args
      ensures r.Exec? ==> r.argv == ExecArgv(cmd, args, sudo)
      ensures r.Shell? ==> r.line == ShellLine(cmd, args, sudo)
      ensures r.Shell? && sudo ==> StartsWith(r.line, "sudo -S -k ")
      ensures r.Shell? && !sudo ==> r.line == Join(" ", [cmd] + args)
    {
      if shell then Shell(ShellLine(cmd, args, sudo), cwd, None)
      else Exec(ExecArgv(cmd, args, sudo), cwd, None)
    }

    /** The drain loop of `_get_output`: a stdout line then a stderr line per
        pass, until stdout is at end of stream. */
    method DrainAlternating(child: Child)
      requires child.Valid()
      modifies this`output, child`outPos, child`errPos
      ensures child.Valid()
      ensures output == old(output) + Alternate(old(child.OutRest()), old(child.ErrRest()))
      ensures child.outPos == |child.out|
      ensures child.errPos == old(child.errPos) + Min(|old(child.ErrRest())|, Rounds(old(child.OutRest())))
    {
      ghost var o := child.OutRest();
      ghost var e := child.ErrRest();
      ghost var start := output;
      ghost var ep := child.errPos;
      while true
        invariant child.Valid() && ep <= child.errPos
        invariant output + Alternate(child.OutRest(), child.ErrRest()) == start + Alternate(o, e)
        invariant child.errPos - ep + Min(|child.ErrRest()|, Rounds(child.OutRest())) == Min(|e|, Rounds(o))
        decreases |child.out| - child.outPos
      {
        ghost var before := output;
        ghost var oBefore := child.OutRest();
        ghost var eBefore := child.ErrRest();
        ghost var epBefore := child.errPos;
        var line := child.ReadOutLine();
        output := output + line;
        line := child.ReadErrLine();
        output := output + line;
        AlternateStep(oBefore, eBefore);
        AppendThree(before, Head(oBefore), Head(eBefore), if |oBefore| <= 1 then "" else Alternate(oBefore[1..], Tail(eBefore)));
        if child.OutAtEof() {
          return;
        }
      }
    }

    /** `_get_output` on the child started by `Call`, which always has all
        three pipes. The credential branch is guarded by `type(pw) == "str"`,
        which compares a type with a string and is never true, so the password
        is never written and the loop that waits for the prompt never runs. */
    method GetOutput(child: Child, pw: Option<string>) returns (r: Outcome<ProcessError>)
      requires child.Valid() && child.hasStdin && child.hasStdout && child.hasStderr
      modifies this`output, child`outPos, child`errPos, child`written
      ensures child.Valid()
      ensures var s := GetOutputSpec(sudo, pw, old(child.OutRest()), old(child.ErrRest()));
        && r == s.result
        && output == old(output) + s.output
        && child.written == old(child.written) + s.written
        && child.outPos == old(child.outPos) + s.outRead
        && child.errPos == old(child.errPos) + s.errRead
    {
      if sudo && pw.None? {
        return Fail(MissingPassword);
      }
      DrainAlternating(child);
      r := Pass;
    }

    /** `run`: read the child's output, then apply the exit code check. */
    method Execute(child: Child, pw: Option<string>, throw: bool) returns (r: Outcome<ProcessError>)
      requires child.Valid() && child.hasStdin && child.hasStdout && child.hasStderr
      modifies this`output, child`outPos, child`errPos, child`written
      ensures var s := GetOutputSpec(sudo, pw, old(child.OutRest()), old(child.ErrRest()));
        && r == (if s.result.Fail? then s.result else ExitCheck(throw, child.returncode))
        && output == old(output) + s.output
        && child.written == old(child.written) + s.written
    {
      r := GetOutput(child, pw);
      if r.Pass? {
        r := ExitCheck(throw, child.returncode);
      }
    }
  }
}
