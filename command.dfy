/** What every draft of the command runner `Run` computes before and after the
    child runs: the flags derived from the command at construction, the
    argument vector or shell line after privilege escalation, and the exit
    code policy of `run`. The four drafts share these lines word for word. */
module Command {
  import opened Wrappers
  import opened Text

  /** The exceptions the runner raises, one per cause. */
  datatype ProcessError =
    | EmptyCommand                          // `build` on an empty `cmd`
    | MissingPassword                       // `sudo` set but no password given
    | NoStdin                               // the child has no stdin pipe
    | IncompleteRead                        // stderr ended inside `readuntil(b": ")`
    | NonZeroExit(returncode: Option<int>)  // `run` with `throw` set
    | ExitMismatch(code: int, expected: int) // `is_ok` with `throw` set

  type Env = map<string, string>

  /** A standard stream setting: `None`, a file descriptor such as `PIPE`,
      or an open file object (named here by its path). */
  datatype Stdio = NoStream | Fd(fd: int) | Handle(name: string)

  /** `subprocess.PIPE` */
  const PIPE: Stdio := Fd(-1)

  /** The words `sudo -S -k` put in front of an escalated command: read the
      password from stdin and forget any cached credential. */
  const Escalation: seq<string> := ["sudo", "-S", "-k"]

  /** `__post_init__`: `sudo` is switched on by a command starting with
      "sudo", and an explicit `True` is kept. */
  function DeriveSudo(cmd: string, sudo: bool): (r: bool)
    ensures sudo ==> r
    ensures StartsWith(cmd, "sudo") ==> r
    ensures r ==> sudo || StartsWith(cmd, "sudo")
  {
    if StartsWith(cmd, "sudo") && !sudo then true else sudo
  }

  /** `__post_init__`: a space anywhere in the command switches on shell
      mode, and an explicit `True` is kept. */
  function DeriveShell(cmd: string, shell: bool): (r: bool)
    ensures r <==> shell || ' ' in cmd
  {
    ContainsChar(cmd, ' ');
    if Contains(cmd, " ") then true else shell
  }

  /** The program and its arguments as handed to `create_subprocess_exec`. */
  datatype Argv = Argv(program: string, args: seq<string>)

  /** The whole word vector, program first. */
  function Words(a: Argv): seq<string> {
    [a.program] + a.args
  }

  /** `_run_exec`: with `sudo` the vector runs `sudo -S -k` over the
      unchanged command and arguments; without it nothing is rewritten. */
  function ExecArgv(cmd: string, args: seq<string>, sudo: bool): (r: Argv)
    ensures Words(r) == (if sudo then Escalation else []) + [cmd] + args
  {
    if sudo then Argv("sudo", ["-S", "-k", cmd] + args) else Argv(cmd, args)
  }

  /** `_run_shell`: the command and arguments joined by single spaces; with
      `sudo`, every "sudo " is removed and `sudo -S -k ` put in front. */
  function ShellLine(cmd: string, args: seq<string>, sudo: bool): (r: string)
    ensures sudo ==> StartsWith(r, "sudo -S -k ")
    ensures !sudo ==> r == Join(" ", [cmd] + args)
  {
    var line := Join(" ", [cmd] + args);
    if sudo then "sudo -S -k " + Replace(line, "sudo ", "") else line
  }

  /** The escalation words joined by spaces, with the space that follows. */
  lemma EscalationJoined()
    ensures Join(" ", Escalation + [""]) == "sudo -S -k "
  {
    var t := Escalation + [""];
    assert t[1..] == ["-S", "-k", ""];
    assert t[1..][1..] == ["-k", ""];
    assert Join(" ", t[1..][1..]) == "-k ";
    assert Join(" ", t[1..]) == "-S -k ";
  }

  /** A command written with a leading "sudo " (which is what switches
      escalation on) loses that word and gains `sudo -S -k ` instead: where the
      rest of the line holds no other "sudo ", the line is exactly the escalation
      prefix followed by the command and its arguments. */
  lemma LeadingSudoStripped(c: string, args: seq<string>)
    requires !Contains(Join(" ", [c] + args), "sudo ")
    ensures ShellLine("sudo " + c, args, true) == "sudo -S -k " + Join(" ", [c] + args)
  {
    var rest := Join(" ", [c] + args);
    var line := Join(" ", ["sudo " + c] + args);
    assert line == "sudo " + rest by {
      if |args| > 0 {
        assert (["sudo " + c] + args)[1..] == args;
        assert ([c] + args)[1..] == args;
      }
    }
    assert line[5..] == rest;
    assert StartsWith(line, "sudo ") by { assert line[..5] == "sudo "; }
    ReplaceAbsent(rest, "sudo ", "");
  }

  /** Where the line contains no "sudo " to strip and no word holds a space,
      the shell splits the escalated line back into exactly the vector exec
      mode would run: the two modes run the same command. */
  lemma ShellLineMatchesExec(cmd: string, args: seq<string>, sudo: bool)
    requires ' ' !in cmd && forall a :: a in args ==> ' ' !in a
    requires !Contains(Join(" ", [cmd] + args), "sudo ")
    ensures Split(ShellLine(cmd, args, sudo), ' ') == Words(ExecArgv(cmd, args, sudo))
  {
    var words := [cmd] + args;
    var line := Join(" ", words);
    forall w | w in words ensures ' ' !in w {
      if w != cmd { assert w in args; }
    }
    if sudo {
      var all := Escalation + words;
      assert ShellLine(cmd, args, sudo) == Join(" ", all) by {
        ReplaceAbsent(line, "sudo ", "");
        JoinFront(" ", Escalation, words);
        EscalationJoined();
      }
      assert Split(Join(" ", all), ' ') == all by {
        forall w | w in all ensures ' ' !in w {
          if w !in Escalation { assert w in words; }
        }
        SplitJoin(all, ' ');
      }
      assert all == Words(ExecArgv(cmd, args, sudo));
    } else {
      SplitJoin(words, ' ');
    }
  }

  /** The joined line of the example below. */
  lemma DnfLineJoined()
    ensures Join(" ", ["sudo dnf", "update", "-y"]) == "sudo dnf update -y"
  {
    var t := ["sudo dnf", "update", "-y"];
    assert t[1..] == ["update", "-y"];
    assert t[1..][1..] == ["-y"];
    assert Join(" ", t[1..]) == "update -y";
  }

  /** Only the leading "sudo " of the example's line is removed. */
  lemma DnfLineStripped()
    ensures Replace("sudo dnf update -y", "sudo ", "") == "dnf update -y"
  {
    var line := "sudo dnf update -y";
    var tail := line[5..];
    assert tail == "dnf update -y";
    assert 's' !in tail;
    NotContainsWithoutHead(tail, "sudo ");
    ReplaceAbsent(tail, "sudo ", "");
    assert line[..5] == "sudo ";
  }

  /** The example in process.py's own main block: the embedded "sudo " is
      stripped so that escalation is not doubled. */
  lemma ShellLineDnfExample()
    ensures ShellLine("sudo dnf", ["update", "-y"], true) == "sudo -S -k dnf update -y"
  {
    var line := Join(" ", ["sudo dnf"] + ["update", "-y"]);
    assert line == "sudo dnf update -y" by {
      assert ["sudo dnf"] + ["update", "-y"] == ["sudo dnf", "update", "-y"];
      DnfLineJoined();
    }
    assert Replace(line, "sudo ", "") == "dnf update -y" by {
      DnfLineStripped();
    }
    assert "sudo -S -k " + "dnf update -y" == "sudo -S -k dnf update -y";
  }

  /** What the child is started with: a program and its vector, or a line for
      the shell; the working directory; the environment passed (None: the
      child inherits the parent's). */
  datatype Invocation =
    | Exec(argv: Argv, cwd: Option<string>, env: Option<Env>)
    | Shell(line: string, cwd: Option<string>, env: Option<Env>)

  /** `run`'s check after the child is done: with `throw` set, anything but a
      return code of 0 raises, an unset return code included. */
  function ExitCheck(throw: bool, returncode: Option<int>): (r: Outcome<ProcessError>)
    ensures r.Fail? <==> throw && returncode != Some(0)
    ensures r.Fail? ==> r.error == NonZeroExit(returncode)
  {
    if throw && returncode != Some(0) then Fail(NonZeroExit(returncode)) else Pass
  }
}
