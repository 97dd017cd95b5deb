/** excursor/core/process.py: the `Run` command runner with fluent builders,
    credential negotiation that waits for the "[sudo]" prompt, and a drain
    that alternates stdout and stderr lines until stdout ends; and the exit
    code check of `ProcessResult.is_ok`. */
module Process {
  import opened Wrappers
  import opened Seqs
  import opened Text
  import opened Command
  import opened Streams
  import opened Pipes

  /** `ProcessResult.is_ok(val, throw)` on the child's exit code: an unset
      code is not a success; a code other than `val` raises when `throw` is
      set and is not a success otherwise. */
  function IsOk(ret: Option<int>, val: int, throw: bool): (r: Result<bool, ProcessError>)
    ensures r == Success(true) <==> ret == Some(val)
    ensures r.Failure? <==> throw && ret.Some? && ret.value != val
    ensures r.Failure? ==> r.error == ExitMismatch(ret.value, val)
  {
    match ret
    case None => Success(false)
    case Some(code) =>
      if code != val && throw then Failure(ExitMismatch(code, val))
      else if code != val then Success(false)
      else Success(true)
  }

  /** `is_ok` with the default `val` of 0 and `run` agree on every set exit
      code, but an unset one makes `run` raise (with `throw`) and `is_ok`
      merely answer no. */
  lemma IsOkAgainstRun(ret: Option<int>, throw: bool)
    ensures ret.Some? ==> (IsOk(ret, 0, throw).Failure? <==> ExitCheck(throw, ret).Fail?)
    ensures ret.Some? ==> (IsOk(ret, 0, throw) == Success(true) <==> ExitCheck(true, ret).Pass?)
    ensures ret.None? ==> IsOk(ret, 0, throw) == Success(false) && (throw <==> ExitCheck(throw, ret).Fail?)
  {
  }

  /** The drain of `_get_output` once negotiation has consumed `skipped`
      stderr fragments and written `written`: it succeeds, reads stdout to
      its end and at most the rest of stderr, and appends its passes in
      order; what it appends is all of stdout and exactly the stderr lines it
      reads. */
  function Drain(out: seq<string>, err: seq<string>, written: seq<string>, skipped: nat): (s: Session)
    ensures s.result == Pass && s.written == written && s.outRead == |out|
    ensures skipped < s.errRead <= skipped + |err| || (|err| == 0 && s.errRead == skipped)
    ensures s.output == Concat(Passes(out, err))
    ensures |s.output| == |Concat(out)| + |Concat(err[..s.errRead - skipped])|
  {
    AlternatePasses(out, err);
    Session(Pass, written, Alternate(out, err), |out|, skipped + Min(|err|, Rounds(out)))
  }

  /** What `_get_output` does with a child whose stdout and stderr hold `out`
      and `err`: with `sudo` and a password it skips fragments up to the first
      "[sudo]" prompt, writes the password once, then drains; with `sudo` and
      no password it raises before reading; without `sudo` it drains. */
  function GetOutputSpec(sudo: bool, pw: Option<string>, out: seq<string>, err: seq<string>): (s: Session)
    ensures s.outRead <= |out| && s.errRead <= |err|
    ensures s.result.Pass? <==> !sudo || (pw.Some? && PromptIndex(err).Some?)
    ensures s.result.Pass? ==> s.outRead == |out|
    ensures s.result.Fail? ==> s.output == "" && s.outRead == 0
    ensures s.written == if sudo && pw.Some? && PromptIndex(err).Some? then [pw.value + "\n"] else []
    ensures sudo && pw.None? ==> s.result == Fail(MissingPassword) && s.errRead == 0
    ensures !sudo ==> s.output == Alternate(out, err)
    ensures sudo && s.result.Pass? ==>
      PromptIndex(err).Some? && s.output == Alternate(out, err[PromptIndex(err).value + 1..])
  {
    if sudo && pw.Some? then
      match PromptIndex(err)
      case None => Session(Fail(IncompleteRead), [], "", 0, |err|)
      case Some(i) => Drain(out, err[i + 1..], [pw.value + "\n"], i + 1)
    else if sudo then Session(Fail(MissingPassword), [], "", 0, 0)
    else Drain(out, err, [], 0)
  }

  /** The fragments before the prompt and the prompt itself never reach
      `output`: it holds only the passes over what follows the prompt. */
  lemma {:induction false} PromptNeverInOutput(pw: string, out: seq<string>, err: seq<string>, i: nat)
    requires i < |err| && StartsWith(err[i], "[sudo]")
    requires forall j :: 0 <= j < i ==> !StartsWith(err[j], "[sudo]")
    ensures GetOutputSpec(true, Some(pw), out, err).output == Concat(Passes(out, err[i + 1..]))
    ensures GetOutputSpec(true, Some(pw), out, err).errRead == i + 1 + Min(|err| - i - 1, Rounds(out))
  {
    AlternatePasses(out, err[i + 1..]);
  }

  /** Once stdout ends the drain stops: of a longer stderr only the first
      line is read, and the rest never reaches `output`. */
  lemma LateStderrDropped()
    ensures GetOutputSpec(false, None, ["o"], ["e", "f"]) == Session(Pass, [], "oe", 1, 1)
  {
    assert Alternate(["o"], ["e", "f"]) == "o" + "e";
  }

  class Run {
    var cmd: string
    var args: seq<string>
    var stdin: Stdio
    var stdout: Stdio
    var stderr: Stdio
    var shell: bool
    var cwd: Option<string>
    /** Set only by `w_cwd`, which writes this attribute rather than `cwd`. */
    var dir: Option<string>
    var bufsize: int
    var text: Option<bool>
    var sudo: bool
    var output: string

    /** The dataclass constructor followed by `__post_init__`. */
    constructor (cmd: string, args: seq<string> := [], stdin: Stdio := NoStream,
                 stdout: Stdio := PIPE, stderr: Stdio := PIPE, shell: bool := false,
                 cwd: Option<string> := None, text: Option<bool> := None,
                 sudo: bool := false, output: string := "")
      ensures this.cmd == cmd && this.args == args && this.cwd == cwd && this.output == output
      ensures this.stdin == stdin && this.stdout == stdout && this.stderr == stderr
      ensures this.text == text && bufsize == 0 && dir == None
      ensures this.sudo == DeriveSudo(cmd, sudo) && this.shell == DeriveShell(cmd, shell)
    {
      this.cmd := cmd;
      this.args := args;
      this.stdin := stdin;
      this.stdout := stdout;
      this.stderr := stderr;
      this.cwd := cwd;
      this.dir := None;
      this.bufsize := 0;
      this.text := text;
      this.output := output;
      this.sudo := DeriveSudo(cmd, sudo);
      this.shell := DeriveShell(cmd, shell);
    }

    /** `w_cmd`: the flags derived from the old command stay as they were. */
    method WCmd(prog: string) returns (r: Run)
      modifies this`cmd
      ensures r == this && cmd == prog
      ensures sudo == old(sudo) && shell == old(shell)
    {
      cmd := prog;
      r := this;
    }

    method WArgs(args: seq<string>) returns (r: Run)
      modifies this`args
      ensures r == this && this.args == args
    {
      this.args := args;
      r := this;
    }

    method WStdin(pipe: Stdio) returns (r: Run)
      modifies this`stdin
      ensures r == this && stdin == pipe
    {
      stdin := pipe;
      r := this;
    }

    method WStdout(pipe: Stdio) returns (r: Run)
      modifies this`stdout
      ensures r == this && stdout == pipe
    {
      stdout := pipe;
      r := this;
    }

    method WStderr(pipe: Stdio) returns (r: Run)
      modifies this`stderr
      ensures r == this && stderr == pipe
    {
      stderr := pipe;
      r := this;
    }

    /** `w_cwd`: the directory lands in `dir`; `cwd`, which the child is
        started in, keeps its value. */
    method WCwd(d: string) returns (r: Run)
      modifies this`dir
      ensures r == this && dir == Some(d) && cwd == old(cwd)
    {
      dir := Some(d);
      r := this;
    }

    method WShell(sh: bool) returns (r: Run)
      modifies this`shell
      ensures r == this && shell == sh
    {
      shell := sh;
      r := this;
    }

    method WBusize(size: int) returns (r: Run)
      modifies this`bufsize
      ensures r == this && bufsize == size
    {
      bufsize := size;
      r := this;
    }

    method WText(txt: bool) returns (r: Run)
      modifies this`text
      ensures r == this && text == Some(txt)
    {
      text := Some(txt);
      r := this;
    }

    /** `build`: an empty command raises; otherwise the runner itself comes
        back untouched. */
    method Build() returns (r: Result<Run, ProcessError>)
      ensures r.Success? <==> cmd != ""
      ensures r.Success? ==> r.value == this
      ensures r.Failure? ==> r.error == EmptyCommand
    {
      if cmd == "" {
        return Failure(EmptyCommand);
      }
      return Success(this);
    }

    /** `__call__`: what `_run_shell` or `_run_exec` start the child with. No
        environment is passed, so the child inherits the parent's. */
    function Call(): (r: Invocation)
      reads this`cmd, this`args, this`shell, this`sudo, this`cwd
      ensures r.Shell? <==> shell
      ensures r.cwd == cwd && r.env == None
      ensures r.Exec? ==> Words(r.argv) == (if sudo then Escalation else []) + [cmd] + args
      ensures r.Exec? ==> r.argv == ExecArgv(cmd, args, sudo)
      ensures r.Shell? ==> r.line == ShellLine(cmd, args, sudo)
      ensures r.Shell? && sudo ==> StartsWith(r.line, "sudo -S -k ")
      ensures r.Shell? && !sudo ==> r.line == Join(" ", [cmd] + args)
    {
      if shell then Shell(ShellLine(cmd, args, sudo), cwd, None)
      else Exec(ExecArgv(cmd, args, sudo), cwd, None)
    }

    /** The credential loop of `_get_output`: read `": "`-terminated stderr
        fragments until one starts with "[sudo]", then write the password. */
    method AwaitPrompt(child: Child, pw: string) returns (r: Outcome<ProcessError>)
      requires sudo && child.Valid()
      modifies child`errPos, child`written
      ensures child.Valid()
      ensures var k := PromptIndex(old(child.ErrRest()));
        && (r.Pass? <==> k.Some?)
        && (r.Fail? ==> r.error == IncompleteRead && child.errPos == |child.err| && child.written == old(child.written))
        && (r.Pass? ==> child.errPos == old(child.errPos) + k.value + 1 && child.written == old(child.written) + [pw + "\n"])
    {
      ghost var err0 := child.ErrRest();
      ghost var e0 := child.errPos;
      while true
        invariant child.Valid() && e0 <= child.errPos
        invariant child.written == old(child.written)
        invariant forall j :: 0 <= j < child.errPos - e0 ==> !StartsWith(err0[j], "[sudo]")
        decreases |child.err| - child.errPos
      {
        var frag := child.ReadErrUntil();
        if frag.None? {
          assert PromptIndex(err0).None?;
          return Fail(IncompleteRead);
        }
        assert frag.value == err0[child.errPos - 1 - e0];
        if sudo && StartsWith(frag.value, "[sudo]") {
          child.Write(pw + "\n");
          assert PromptIndex(err0) == Some(child.errPos - e0 - 1);
          return Pass;
        }
      }
    }

    /** The drain loop of `_get_output`: a stdout line then a stderr line per
        pass, until stdout is at end of stream. */
    method DrainAlternating(child: Child)
      requires child.Valid()
      modifies this`output, child`outPos, child`errPos
      ensures child.Valid()
      ensures output == old(output) + Alternate(old(child.OutRest()), old(child.ErrRest()))
      ensures child.outPos == |child.out|
      ensures child.errPos == old(child.errPos) + Min(|old(child.ErrRest())|, Rounds(old(child.OutRest())))
    {
      ghost var o := child.OutRest();
      ghost var e := child.ErrRest();
      ghost var start := output;
      ghost var ep := child.errPos;
      while true
        invariant child.Valid() && ep <= child.errPos
        invariant output + Alternate(child.OutRest(), child.ErrRest()) == start + Alternate(o, e)
        invariant child.errPos - ep + Min(|child.ErrRest()|, Rounds(child.OutRest())) == Min(|e|, Rounds(o))
        decreases |child.out| - child.outPos
      {
        ghost var before := output;
        ghost var oBefore := child.OutRest();
        ghost var eBefore := child.ErrRest();
        ghost var epBefore := child.errPos;
        var line := child.ReadOutLine();
        output := output + line;
        line := child.ReadErrLine();
        output := output + line;
        AlternateStep(oBefore, eBefore);
        AppendThree(before, Head(oBefore), Head(eBefore), if |oBefore| <= 1 then "" else Alternate(oBefore[1..], Tail(eBefore)));
        if child.OutAtEof() {
          return;
        }
      }
    }

    /** `_get_output` on the child started by `Call`, which always has all
        three pipes. */
    method GetOutput(child: Child, pw: Option<string>) returns (r: Outcome<ProcessError>)
      requires child.Valid() && child.hasStdin && child.hasStdout && child.hasStderr
      modifies this`output, child`outPos, child`errPos, child`written
      ensures child.Valid()
      ensures var s := GetOutputSpec(sudo, pw, old(child.OutRest()), old(child.ErrRest()));
        && r == s.result
        && output == old(output) + s.output
        && child.written == old(child.written) + s.written
        && child.outPos == old(child.outPos) + s.outRead
        && child.errPos == old(child.errPos) + s.errRead
    {
      ghost var err0 := child.ErrRest();
      if sudo && pw.Some? {
        r := AwaitPrompt(child, pw.value);
        if r.Fail? {
          return;
        }
        assert child.ErrRest() == err0[PromptIndex(err0).value + 1..];
      } else if sudo {
        return Fail(MissingPassword);
      }
      DrainAlternating(child);
      r := Pass;
    }

    /** `run`: read the child's output, then apply the exit code check. */
    method Execute(child: Child, pw: Option<string>, throw: bool) returns (r: Outcome<ProcessError>)
      requires child.Valid() && child.hasStdin && child.hasStdout && child.hasStderr
      modifies this`output, child`outPos, child`errPos, child`written
      ensures var s := GetOutputSpec(sudo, pw, old(child.OutRest()), old(child.ErrRest()));
        && r == (if s.result.Fail? then s.result else ExitCheck(throw, child.returncode))
        && output == old(output) + s.output
        && child.written == old(child.written) + s.written
    {
      r := GetOutput(child, pw);
      if r.Pass? {
        r := ExitCheck(throw, child.returncode);
      }
    }
  }
}
