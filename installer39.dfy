/** excursor/core/installer_39.py: the system installer that detects the
    platform from `uname` and /etc/os-release, builds package-manager command
    lines, picks the development libraries and the shell rc file, comments
    out the asdf line of `.zshrc`, and orders the install or clean actions.
    The uname fields and the file contents are inputs. */
module Installer39 {
  import opened Wrappers
  import opened Seqs
  import opened Text
  import opened Command
  import opened PackageCommands

  datatype Os = Mac | Linux | Unsupported
  datatype Arch = X86_64 | Arm64
  datatype Distro = MacDistro | Fedora | Debian | Ubuntu | Centos | Amazon | UnsupportedDistro
  datatype Manager = Dnf | Apt | Brew

  /** The manager as written into a command line. */
  function ManagerName(m: Manager): string {
    match m
    case Dnf => "dnf"
    case Apt => "apt"
    case Brew => "brew"
  }

  /** `get_system` on the lower-cased system name and the machine: linux
      keeps its architecture, darwin reports arm64 even on x86_64, and
      anything else is unsupported with x86_64. */
  function SystemOf(system: string, machine: string): (r: (Os, Arch))
    ensures r.0 == Linux <==> system == "linux" && (machine == "x86_64" || machine == "arm64")
    ensures r.0 == Mac <==> system == "darwin" && (machine == "x86_64" || machine == "arm64")
    ensures r.0 == Linux ==> (r.1 == Arm64 <==> machine == "arm64")
    ensures r.0 != Linux ==> (r.1 == Arm64 <==> r.0 == Mac)
  {
    if system == "linux" && machine == "x86_64" then (Linux, X86_64)
    else if system == "linux" && machine == "arm64" then (Linux, Arm64)
    else if system == "darwin" && machine == "x86_64" then (Mac, Arm64)
    else if system == "darwin" && machine == "arm64" then (Mac, Arm64)
    else (Unsupported, X86_64)
  }

  /** What the os-release scan reads and writes. */
  datatype Release = Release(distro: Option<Distro>, manager: Option<Manager>, uninstallCmd: string)

  /** A `NAME` line that takes the debian or ubuntu branch, the only ones
      that switch `uninstall_cmd` to "remove". */
  predicate AptBranch(line: string) {
    StartsWith(line, "NAME") && !Contains(line, "fedora")
      && (Contains(line, "debian") || Contains(line, "ubuntu"))
  }

  /** The manager that goes with a distribution in the os-release table:
      dnf for the red hat family, apt for the debian family and for an
      unknown name, brew on a mac. */
  function ManagerOf(d: Distro): Manager {
    match d
    case Fedora => Dnf
    case Centos => Dnf
    case Amazon => Dnf
    case Debian => Apt
    case Ubuntu => Apt
    case UnsupportedDistro => Apt
    case MacDistro => Brew
  }

  /** A line that names the distribution. */
  predicate NameEntry(line: string) {
    StartsWith(line, "NAME")
  }

  /** One line of the os-release scan: a `NAME` line sets the distribution
      and manager by the first name it contains; other lines change nothing.
      The manager always matches the distribution, a mac is never named, and
      only the debian and ubuntu branches touch `uninstall_cmd`. */
  function NameLine(line: string, st: Release): (r: Release)
    ensures !NameEntry(line) ==> r == st
    ensures NameEntry(line) ==>
      r.distro.Some? && r.distro != Some(MacDistro) && r.manager == Some(ManagerOf(r.distro.value))
    ensures NameEntry(line) && Contains(line, "fedora") ==> r.distro == Some(Fedora)
    ensures r.uninstallCmd == if AptBranch(line) then "remove" else st.uninstallCmd
  {
    if !StartsWith(line, "NAME") then st
    else if Contains(line, "fedora") then st.(distro := Some(Fedora), manager := Some(Dnf))
    else if Contains(line, "debian") then Release(Some(Debian), Some(Apt), "remove")
    else if Contains(line, "ubuntu") then Release(Some(Ubuntu), Some(Apt), "remove")
    else if Contains(line, "centos") then st.(distro := Some(Centos), manager := Some(Dnf))
    else if Contains(line, "amazon") then st.(distro := Some(Amazon), manager := Some(Dnf))
    else st.(distro := Some(UnsupportedDistro), manager := Some(Apt))
  }

  /** The scan over the lines read so far, first line first. A file without
      a `NAME` line leaves everything as it was; with one, the distribution
      is set and the manager matches it, whatever the state before. */
  function ReleaseScan(lines: seq<string>, st: Release): (r: Release)
    ensures (forall i :: 0 <= i < |lines| ==> !NameEntry(lines[i])) ==> r == st
    ensures (exists i :: 0 <= i < |lines| && NameEntry(lines[i])) ==>
      r.distro.Some? && r.distro != Some(MacDistro) && r.manager == Some(ManagerOf(r.distro.value))
    decreases |lines|
  {
    if |lines| == 0 then st
    else
      var init := lines[..|lines| - 1];
      var last := lines[|lines| - 1];
      assert forall i :: 0 <= i < |init| ==> init[i] == lines[i];
      assert (exists i :: 0 <= i < |lines| && NameEntry(lines[i])) ==>
        NameEntry(last) || exists i :: 0 <= i < |init| && NameEntry(init[i]);
      NameLine(last, ReleaseScan(init, st))
  }

  /** `uninstall_cmd` ends up "remove" exactly when it started so or some
      `NAME` line took the debian or ubuntu branch. */
  lemma {:induction false} ScanRemoveIff(lines: seq<string>, st: Release)
    ensures ReleaseScan(lines, st).uninstallCmd == "remove" <==>
      st.uninstallCmd == "remove" || exists i :: 0 <= i < |lines| && AptBranch(lines[i])
    ensures ReleaseScan(lines, st).uninstallCmd != "remove" ==>
      ReleaseScan(lines, st).uninstallCmd == st.uninstallCmd
    decreases |lines|
  {
    if |lines| > 0 {
      var init := lines[..|lines| - 1];
      ScanRemoveIff(init, st);
      if exists i :: 0 <= i < |init| && AptBranch(init[i]) {
        var i :| 0 <= i < |init| && AptBranch(init[i]);
        assert lines[i] == init[i];
      }
      if exists i :: 0 <= i < |lines| && AptBranch(lines[i]) {
        var i :| 0 <= i < |lines| && AptBranch(lines[i]);
        if i < |init| { assert init[i] == lines[i]; }
      }
    }
  }

  /** A file read line by line, without the scan. */
  lemma ScanStep(lines: seq<string>, st: Release, i: nat)
    requires i < |lines|
    ensures ReleaseScan(lines[..i + 1], st) == NameLine(lines[i], ReleaseScan(lines[..i], st))
  {
    assert lines[..i + 1][..i] == lines[..i];
  }

  /** The development libraries of a mac. */
  const MacLibs: seq<string> := ["openssl", "readline", "sqlite3", "xz", "zlib", "tcl-tk"]

  /** `PythonDevel.__post_init__`: the library list of the detected
      distribution; an unset distribution (unsupported os) raises on the
      read, any other unknown one raises explicitly. */
  function DevelLibs(distro: Option<Distro>): (r: Result<seq<string>, InstallError>)
    ensures r.Success? <==> distro.Some? && distro.value in {Fedora, Amazon, Debian, Ubuntu, MacDistro}
    ensures r.Success? ==> |r.value| > 0
    ensures r.Success? && distro.value in {Fedora, Amazon} ==> "gcc" in r.value
    ensures distro.None? ==> r == Failure(UnsetAttribute("distro"))
    ensures distro == Some(Fedora) || distro == Some(Amazon) ==> r == Success(FedoraLibs)
    ensures distro == Some(Debian) || distro == Some(Ubuntu) ==> r == Success(DebianLibs)
    ensures distro == Some(MacDistro) ==> r == Success(MacLibs)
    ensures distro == Some(Centos) || distro == Some(UnsupportedDistro) ==> r == Failure(UnsupportedOs)
  {
    match distro
    case None => Failure(UnsetAttribute("distro"))
    case Some(d) =>
      if d == Fedora || d == Amazon then Success(FedoraLibs)
      else if d == Debian || d == Ubuntu then Success(DebianLibs)
      else if d == MacDistro then Success(MacLibs)
      else Failure(UnsupportedOs)
  }

  /** The distribution `__post_init__` settles on: linux is taken for
      fedora whatever /etc/os-release names, a mac is "mac", and an
      unsupported system never gets one. */
  function DistroOf(os: Os): (r: Option<Distro>)
    ensures r.None? <==> os == Unsupported
    ensures r == Some(Fedora) <==> os == Linux
    ensures r.Some? ==> ManagerOf(r.value) == (if os == Mac then Brew else Dnf)
  {
    match os
    case Linux => Some(Fedora)
    case Mac => Some(MacDistro)
    case Unsupported => None
  }

  /** What `PythonDevel()` ends up with on each system: the fedora list on
      linux (whatever the distribution), the mac list on darwin, and an error
      elsewhere because the installer never got a distribution. */
  lemma DevelLibsBySystem(system: string, machine: string)
    ensures var os := SystemOf(Lower(system), machine).0;
      && (os == Linux ==> DevelLibs(DistroOf(os)) == Success(FedoraLibs))
      && (os == Mac ==> DevelLibs(DistroOf(os)) == Success(MacLibs))
      && (os == Unsupported ==> DevelLibs(DistroOf(os)) == Failure(UnsetAttribute("distro")))
    ensures var os := SystemOf(Lower(system), machine).0;
      DevelLibs(DistroOf(os)).Success? <==> Lower(system) in {"linux", "darwin"} && machine in {"x86_64", "arm64"}
  {
  }

  /** The rc file `_install_asdf` appends to: zsh and bash are supported. */
  function RcFile(shell: string): (r: Result<string, InstallError>)
    ensures r.Success? <==> shell == "zsh" || shell == "bash"
    ensures r.Success? ==> r.value == "." + shell + "rc"
    ensures r.Failure? ==> r.error == UnsupportedShell(shell)
  {
    if shell == "zsh" then Success(".zshrc")
    else if shell == "bash" then Success(".bashrc")
    else Failure(UnsupportedShell(shell))
  }

  /** The line that sources asdf from the shell rc. */
  const AsdfSource: string := ". $HOME/.asdf/asdf.sh"

  /** One line of the `.zshrc` rewrite in `_uninstall_asdf`. */
  function CommentLine(line: string): (r: string)
    ensures Contains(line, AsdfSource) ==> |r| == |line| + 3 && r[..2] == "# " && r[2..|r| - 1] == line && r[|r| - 1] == '\n'
    ensures !Contains(line, AsdfSource) ==> r == line
  {
    if Contains(line, AsdfSource) then "# " + line + "\n" else line
  }

  /** The loop of `_uninstall_asdf` building `new_zsh`: one line out per line
      in, the asdf lines commented out and every other line kept. */
  method CommentOutAsdf(lines: seq<string>) returns (newZsh: seq<string>)
    ensures |newZsh| == |lines|
    ensures forall i :: 0 <= i < |lines| ==> newZsh[i] == CommentLine(lines[i])
  {
    newZsh := [];
    var i := 0;
    while i < |lines|
      invariant 0 <= i <= |lines|
      invariant |newZsh| == i
      invariant forall j :: 0 <= j < i ==> newZsh[j] == CommentLine(lines[j])
    {
      var line := lines[i];
      if Contains(line, AsdfSource) {
        line := "# " + line + "\n";
      }
      newZsh := newZsh + [line];
      i := i + 1;
    }
  }

  /** The bound methods `install` queues. */
  datatype Action =
    | InstallSysdeps | InstallAsdf | InstallPoetry | CreateVenv
    | UninstallVenv | UninstallPoetry | UninstallAsdf | UninstallSysdeps

  /** The option each action answers to. */
  function OptionOf(a: Action): string {
    match a
    case InstallSysdeps => "sys"
    case UninstallSysdeps => "sys"
    case InstallAsdf => "asdf"
    case UninstallAsdf => "asdf"
    case InstallPoetry => "poetry"
    case UninstallPoetry => "poetry"
    case CreateVenv => "venv"
    case UninstallVenv => "venv"
  }

  predicate IsCleanup(a: Action) {
    a.UninstallVenv? || a.UninstallPoetry? || a.UninstallAsdf? || a.UninstallSysdeps?
  }

  /** The step that undoes an install step. */
  function Undo(a: Action): Action {
    match a
    case InstallSysdeps => UninstallSysdeps
    case InstallAsdf => UninstallAsdf
    case InstallPoetry => UninstallPoetry
    case CreateVenv => UninstallVenv
    case other => other
  }

  /** Position in the install order: sys, asdf, poetry, venv. */
  function Rank(a: Action): nat {
    match a
    case InstallSysdeps => 0
    case InstallAsdf => 1
    case InstallPoetry => 2
    case CreateVenv => 3
    case UninstallSysdeps => 0
    case UninstallAsdf => 1
    case UninstallPoetry => 2
    case UninstallVenv => 3
  }

  function When(b: bool, a: Action): seq<Action> {
    if b then [a] else []
  }

  /** The actions `install(clean, options)` queues, as a value. */
  function Plan(clean: bool, options: seq<string>): (r: seq<Action>)
    ensures |r| <= 4
    ensures forall a :: a in r ==> IsCleanup(a) == clean && OptionOf(a) in options
    ensures "sys" !in options && "asdf" !in options && "poetry" !in options && "venv" !in options ==> r == []
  {
    if clean then
      When("venv" in options, UninstallVenv) + When("poetry" in options, UninstallPoetry)
        + When("asdf" in options, UninstallAsdf) + When("sys" in options, UninstallSysdeps)
    else
      When("sys" in options, InstallSysdeps) + When("asdf" in options, InstallAsdf)
        + When("poetry" in options, InstallPoetry) + When("venv" in options, CreateVenv)
  }

  /** `a` comes before `b` in the install order, or after it in the clean
      order. */
  predicate Before(a: Action, b: Action, up: bool) {
    if up then Rank(a) < Rank(b) else Rank(a) > Rank(b)
  }

  /** Every action comes before every later one. */
  predicate Ranked(p: seq<Action>, up: bool) {
    forall i, j :: 0 <= i < j < |p| ==> Before(p[i], p[j], up)
  }

  /** The order in which `install` considers the actions of a mode. */
  function Order(clean: bool): seq<Action> {
    if clean then [UninstallVenv, UninstallPoetry, UninstallAsdf, UninstallSysdeps]
    else [InstallSysdeps, InstallAsdf, InstallPoetry, CreateVenv]
  }

  /** The actions of `order` whose option was given, in that order. */
  function Select(order: seq<Action>, options: seq<string>): seq<Action>
    decreases |order|
  {
    if |order| == 0 then []
    else When(OptionOf(order[0]) in options, order[0]) + Select(order[1..], options)
  }

  /** Selecting keeps the order's ranking and exactly the chosen actions. */
  lemma {:induction false} SelectRanked(order: seq<Action>, options: seq<string>, up: bool)
    requires Ranked(order, up)
    ensures forall a :: a in Select(order, options) <==> a in order && OptionOf(a) in options
    ensures Ranked(Select(order, options), up)
    decreases |order|
  {
    if |order| > 0 {
      var rest := order[1..];
      assert Ranked(rest, up) by {
        forall i, j | 0 <= i < j < |rest| ensures Before(rest[i], rest[j], up) {
          assert rest[i] == order[i + 1] && rest[j] == order[j + 1];
        }
      }
      SelectRanked(rest, options, up);
      var head := When(OptionOf(order[0]) in options, order[0]);
      var tail := Select(rest, options);
      forall i, j | 0 <= i < j < |head + tail| ensures Before((head + tail)[i], (head + tail)[j], up) {
        if i < |head| {
          assert (head + tail)[j] == tail[j - |head|];
          assert tail[j - |head|] in tail;
          var k :| 0 <= k < |rest| && rest[k] == tail[j - |head|];
          assert rest[k] == order[k + 1];
        } else {
          assert (head + tail)[i] == tail[i - |head|] && (head + tail)[j] == tail[j - |head|];
        }
      }
      assert order == [order[0]] + rest;
    }
  }

  /** One step of the selection. */
  lemma SelectCons(x: Action, rest: seq<Action>, options: seq<string>)
    ensures Select([x] + rest, options) == When(OptionOf(x) in options, x) + Select(rest, options)
  {
    assert ([x] + rest)[1..] == rest;
  }

  /** Selecting from four actions, one at a time. */
  lemma SelectFour(a: Action, b: Action, c: Action, d: Action, options: seq<string>)
    ensures Select([a, b, c, d], options)
      == When(OptionOf(a) in options, a) + When(OptionOf(b) in options, b)
        + When(OptionOf(c) in options, c) + When(OptionOf(d) in options, d)
  {
    assert [a, b, c, d] == [a] + ([b] + ([c] + ([d] + [])));
    SelectCons(d, [], options);
    SelectCons(c, [d] + [], options);
    SelectCons(b, [c] + ([d] + []), options);
    SelectCons(a, [b] + ([c] + ([d] + [])), options);
    AppendFour(When(OptionOf(a) in options, a), When(OptionOf(b) in options, b),
      When(OptionOf(c) in options, c), When(OptionOf(d) in options, d), Select([], options));
  }

  /** Regrouping four appended runs. */
  lemma AppendFour(w: seq<Action>, x: seq<Action>, y: seq<Action>, z: seq<Action>, e: seq<Action>)
    requires e == []
    ensures w + (x + (y + (z + e))) == w + x + y + z
  {
    assert z + e == z;
  }

  /** The plan is the selection from the mode's order. */
  lemma PlanIsSelect(clean: bool, options: seq<string>)
    ensures Plan(clean, options) == Select(Order(clean), options)
  {
    if clean {
      SelectFour(UninstallVenv, UninstallPoetry, UninstallAsdf, UninstallSysdeps, options);
    } else {
      SelectFour(InstallSysdeps, InstallAsdf, InstallPoetry, CreateVenv, options);
    }
  }

  /** The mode's order lists exactly the actions of that kind, ranked. */
  lemma OrderContents(clean: bool)
    ensures forall a :: a in Order(clean) <==> IsCleanup(a) == clean
    ensures Ranked(Order(clean), !clean)
  {
    forall a ensures a in Order(clean) <==> IsCleanup(a) == clean {
      match a
      case InstallSysdeps => assert Order(false)[0] == a;
      case InstallAsdf => assert Order(false)[1] == a;
      case InstallPoetry => assert Order(false)[2] == a;
      case CreateVenv => assert Order(false)[3] == a;
      case UninstallVenv => assert Order(true)[0] == a;
      case UninstallPoetry => assert Order(true)[1] == a;
      case UninstallAsdf => assert Order(true)[2] == a;
      case UninstallSysdeps => assert Order(true)[3] == a;
    }
  }

  /** What the plan holds: an action exactly when its option was given, of
      the kind the mode asks for; installs in the order sys, asdf, poetry,
      venv, cleanups in the reverse order; so no action twice. */
  lemma PlanContents(clean: bool, options: seq<string>)
    ensures forall a :: a in Plan(clean, options) <==> OptionOf(a) in options && IsCleanup(a) == clean
    ensures Ranked(Plan(clean, options), !clean)
  {
    PlanIsSelect(clean, options);
    OrderContents(clean);
    SelectRanked(Order(clean), options, !clean);
  }

  /** "full", accepted on the command line, selects nothing. */
  lemma FullSelectsNothing(clean: bool)
    ensures Plan(clean, ["full"]) == []
  {
  }

  function UndoAll(s: seq<Action>): seq<Action> {
    seq(|s|, i requires 0 <= i < |s| => Undo(s[i]))
  }

  /** Clean operations undo the installs in reverse order. */
  lemma CleanReversesInstall(options: seq<string>)
    ensures Plan(true, options) == Reverse(UndoAll(Plan(false, options)))
  {
    var a := When("sys" in options, InstallSysdeps);
    var b := When("asdf" in options, InstallAsdf);
    var c := When("poetry" in options, InstallPoetry);
    var d := When("venv" in options, CreateVenv);
    ReverseUndoFour(a, b, c, d);
    ReverseUndoWhen("sys" in options, InstallSysdeps);
    ReverseUndoWhen("asdf" in options, InstallAsdf);
    ReverseUndoWhen("poetry" in options, InstallPoetry);
    ReverseUndoWhen("venv" in options, CreateVenv);
  }

  /** Four runs of actions, undone and reversed: the runs come back last
      first. */
  lemma ReverseUndoFour(a: seq<Action>, b: seq<Action>, c: seq<Action>, d: seq<Action>)
    ensures Reverse(UndoAll(a + b + c + d))
         == Reverse(UndoAll(d)) + Reverse(UndoAll(c)) + Reverse(UndoAll(b)) + Reverse(UndoAll(a))
  {
    var ab := a + b;
    var abc := ab + c;
    var ra, rb, rc, rd := Reverse(UndoAll(a)), Reverse(UndoAll(b)), Reverse(UndoAll(c)), Reverse(UndoAll(d));
    assert Reverse(UndoAll(ab)) == rb + ra by { ReverseUndoAppend(a, b); }
    assert Reverse(UndoAll(abc)) == rc + (rb + ra) by { ReverseUndoAppend(ab, c); }
    assert Reverse(UndoAll(abc + d)) == rd + (rc + (rb + ra)) by { ReverseUndoAppend(abc, d); }
    assert rd + (rc + (rb + ra)) == rd + rc + rb + ra;
  }

  /** An action that may or may not be queued, undone. */
  lemma ReverseUndoWhen(b: bool, x: Action)
    ensures Reverse(UndoAll(When(b, x))) == When(b, Undo(x))
  {
    if b {
      assert UndoAll([x]) == [Undo(x)];
      assert [Undo(x)][1..] == [];
    }
  }

  lemma {:induction false} ReverseUndoAppend(s: seq<Action>, t: seq<Action>)
    ensures Reverse(UndoAll(s + t)) == Reverse(UndoAll(t)) + Reverse(UndoAll(s))
    decreases |s|
  {
    if |s| == 0 {
      assert s + t == t;
      assert UndoAll(s) == [];
    } else {
      ReverseUndoAppend(s[1..], t);
      assert (s + t)[1..] == s[1..] + t;
      assert UndoAll(s + t)[1..] == UndoAll(s[1..] + t);
      assert UndoAll(s)[1..] == UndoAll(s[1..]);
    }
  }

  /** `install(clean, options)`: the action list built by `append`. Building
      `PythonDevel` first, which raises on an unsupported distribution, is
      `DevelLibs`. */
  method InstallActions(clean: bool, options: seq<string>) returns (actions: seq<Action>)
    ensures actions == Plan(clean, options)
  {
    actions := [];
    if clean {
      if "venv" in options { actions := actions + [UninstallVenv]; }
      assert actions == When("venv" in options, UninstallVenv);
      if "poetry" in options { actions := actions + [UninstallPoetry]; }
      assert actions == When("venv" in options, UninstallVenv) + When("poetry" in options, UninstallPoetry);
      ghost var two := actions;
      if "asdf" in options { actions := actions + [UninstallAsdf]; }
      assert actions == two + When("asdf" in options, UninstallAsdf);
      ghost var three := actions;
      if "sys" in options { actions := actions + [UninstallSysdeps]; }
      assert actions == three + When("sys" in options, UninstallSysdeps);
    } else {
      if "sys" in options { actions := actions + [InstallSysdeps]; }
      assert actions == When("sys" in options, InstallSysdeps);
      if "asdf" in options { actions := actions + [InstallAsdf]; }
      assert actions == When("sys" in options, InstallSysdeps) + When("asdf" in options, InstallAsdf);
      ghost var two := actions;
      if "poetry" in options { actions := actions + [InstallPoetry]; }
      assert actions == two + When("poetry" in options, InstallPoetry);
      ghost var three := actions;
      if "venv" in options { actions := actions + [CreateVenv]; }
      assert actions == three + When("venv" in options, CreateVenv);
    }
  }

  /** `SysInstaller` with the fields of `Installer`; `os`, `arch`, `manager`
      and `distro` are declared without a default and stay unset until
      assigned. */
  class SysInstaller {
    var os: Option<Os>
    var arch: Option<Arch>
    var manager: Option<Manager>
    var distro: Option<Distro>
    var installCmd: string
    var uninstallCmd: string
    var updateCmd: string
    var upgradeCmd: string

    /** `__post_init__` on the uname fields and the lines of
        /etc/os-release, after the dataclass has stored the four keyword-only
        verbs (each with its default). */
    constructor (system: string, machine: string, release: seq<string>,
                 install: string := "install", uninstall: string := "uninstall",
                 update: string := "update", upgrade: string := "upgrade")
      ensures (os, arch) == (Some(SystemOf(Lower(system), machine).0), Some(SystemOf(Lower(system), machine).1))
      ensures distro == DistroOf(os.value)
      ensures os == Some(Linux) ==> distro == Some(Fedora) && manager == Some(Dnf)
      ensures os == Some(Linux) ==>
        (uninstallCmd == "remove" <==>
          uninstall == "remove" || exists i :: 0 <= i < |release| && AptBranch(release[i]))
      ensures uninstallCmd != "remove" ==> uninstallCmd == uninstall
      ensures os == Some(Mac) ==> distro == Some(MacDistro) && manager == Some(Brew)
      ensures os == Some(Unsupported) ==> distro == None && manager == None
      ensures os != Some(Linux) ==> uninstallCmd == uninstall
      ensures installCmd == install && updateCmd == update && upgradeCmd == upgrade
    {
      os := None;
      arch := None;
      manager := None;
      distro := None;
      installCmd := install;
      uninstallCmd := uninstall;
      updateCmd := update;
      upgradeCmd := upgrade;
      new;
      GetSystem(system, machine);
      if os == Some(Linux) {
        ScanRelease(release);
        ghost var scanned := uninstallCmd;
        assert (scanned == "remove" <==>
                 uninstall == "remove" || exists i :: 0 <= i < |release| && AptBranch(release[i]))
            && (scanned != "remove" ==> scanned == uninstall) by {
          ScanRemoveIff(release, Release(None, None, uninstall));
        }
        distro := Some(Fedora);
        manager := Some(Dnf);
      } else if os == Some(Mac) {
        distro := Some(MacDistro);
        manager := Some(Brew);
      }
    }

    /** `get_system` */
    method GetSystem(system: string, machine: string)
      modifies this`os, this`arch
      ensures os == Some(SystemOf(Lower(system), machine).0)
      ensures arch == Some(SystemOf(Lower(system), machine).1)
    {
      var sys := Lower(system);
      if sys == "linux" && machine == "x86_64" {
        os, arch := Some(Linux), Some(X86_64);
      } else if sys == "linux" && machine == "arm64" {
        os, arch := Some(Linux), Some(Arm64);
      } else if sys == "darwin" && machine == "x86_64" {
        os, arch := Some(Mac), Some(Arm64);
      } else if sys == "darwin" && machine == "arm64" {
        os, arch := Some(Mac), Some(Arm64);
      } else {
        os, arch := Some(Unsupported), Some(X86_64);
      }
    }

    /** The loop over the lines of /etc/os-release. */
    method ScanRelease(lines: seq<string>)
      modifies this`distro, this`manager, this`uninstallCmd
      ensures Release(distro, manager, uninstallCmd)
        == ReleaseScan(lines, old(Release(distro, manager, uninstallCmd)))
    {
      ghost var st := Release(distro, manager, uninstallCmd);
      var i := 0;
      while i < |lines|
        invariant 0 <= i <= |lines|
        invariant Release(distro, manager, uninstallCmd) == ReleaseScan(lines[..i], st)
      {
        var line := lines[i];
        ScanStep(lines, st, i);
        if StartsWith(line, "NAME") {
          if Contains(line, "fedora") {
            distro, manager := Some(Fedora), Some(Dnf);
          } else if Contains(line, "debian") {
            distro, manager, uninstallCmd := Some(Debian), Some(Apt), "remove";
          } else if Contains(line, "ubuntu") {
            distro, manager, uninstallCmd := Some(Ubuntu), Some(Apt), "remove";
          } else if Contains(line, "centos") {
            distro, manager := Some(Centos), Some(Dnf);
          } else if Contains(line, "amazon") {
            distro, manager := Some(Amazon), Some(Dnf);
          } else {
            distro, manager := Some(UnsupportedDistro), Some(Apt);
          }
        }
        i := i + 1;
      }
      assert lines[..i] == lines;
    }

    /** The line `install` runs: "sudo " in front when the password is
        truthy, which makes the runner escalate, then the manager, the verb,
        the extras and the packages. */
    function InstallCommand(pkgs: seq<string>, pw: Option<string>, flags: Flags,
                            extras: seq<(string, string)>): (r: Result<string, InstallError>)
      reads this`manager, this`installCmd
      ensures r.Failure? <==> manager.None?
      ensures r.Failure? ==> r.error == UnsetAttribute("manager")
      ensures r.Success? ==>
        r.value == CommandLine("sudo ", pw, ManagerName(manager.value), installCmd, Extras(flags, extras), pkgs)
      ensures r.Success? && IsTruthy(pw) ==> StartsWith(r.value, "sudo " + ManagerName(manager.value))
      ensures r.Success? && IsTruthy(pw) ==> DeriveSudo(r.value, false)
      ensures r.Success? && !IsTruthy(pw) ==> StartsWith(r.value, ManagerName(manager.value))
    {
      match manager
      case None => Failure(UnsetAttribute("manager"))
      case Some(m) =>
        var line := CommandLine("sudo ", pw, ManagerName(m), installCmd, Extras(flags, extras), pkgs);
        assert IsTruthy(pw) ==> line[..4] == ("sudo " + ManagerName(m))[..4];
        Success(line)
    }

    /** The line `uninstall` runs: "sudo" without a space, glued onto the
        manager's name. */
    function UninstallCommand(pkgs: seq<string>, pw: Option<string>, flags: Flags,
                              extras: seq<(string, string)>): (r: Result<string, InstallError>)
      reads this`manager, this`uninstallCmd
      ensures r.Failure? <==> manager.None?
      ensures r.Failure? ==> r.error == UnsetAttribute("manager")
      ensures r.Success? ==>
        r.value == CommandLine("sudo", pw, ManagerName(manager.value), uninstallCmd, Extras(flags, extras), pkgs)
      ensures r.Success? && IsTruthy(pw) ==> StartsWith(r.value, "sudo" + ManagerName(manager.value))
      ensures r.Success? && !IsTruthy(pw) ==> StartsWith(r.value, ManagerName(manager.value))
    {
      match manager
      case None => Failure(UnsetAttribute("manager"))
      case Some(m) => Success(CommandLine("sudo", pw, ManagerName(m), uninstallCmd, Extras(flags, extras), pkgs))
    }

    /** The line `update` runs, with the same glued "sudo". */
    function UpdateCommand(pkgs: seq<string>, pw: Option<string>, flags: Flags,
                           extras: seq<(string, string)>): (r: Result<string, InstallError>)
      reads this`manager, this`updateCmd
      ensures r.Failure? <==> manager.None?
      ensures r.Failure? ==> r.error == UnsetAttribute("manager")
      ensures r.Success? ==>
        r.value == CommandLine("sudo", pw, ManagerName(manager.value), updateCmd, Extras(flags, extras), pkgs)
      ensures r.Success? && IsTruthy(pw) ==> StartsWith(r.value, "sudo" + ManagerName(manager.value))
      ensures r.Success? && !IsTruthy(pw) ==> StartsWith(r.value, ManagerName(manager.value))
    {
      match manager
      case None => Failure(UnsetAttribute("manager"))
      case Some(m) => Success(CommandLine("sudo", pw, ManagerName(m), updateCmd, Extras(flags, extras), pkgs))
    }
  }

  /** With the glued prefix, `uninstall` on dnf with a password runs a line
      that starts "sudodnf", not "sudo dnf". */
  lemma GluedSudoOnDnf(pw: string, verb: string, extraArgs: string, pkgs: seq<string>)
    requires pw != ""
    ensures StartsWith(CommandLine("sudo", Some(pw), "dnf", verb, extraArgs, pkgs), "sudodnf")
    ensures !StartsWith(CommandLine("sudo", Some(pw), "dnf", verb, extraArgs, pkgs), "sudo ")
  {
    var line := CommandLine("sudo", Some(pw), "dnf", verb, extraArgs, pkgs);
    assert line[..7] == "sudodnf";
    assert line[4] == 'd';
  }
}
