/** excursor/core/installer.py: the earlier installer draft. Its fields are
    all declared without defaults, so each is unset until `__post_init__`
    assigns it, and `uninstall` and `update` hand the keyword arguments to
    `extras` positionally. The uname fields are inputs. */
module Installer {
  import opened Wrappers
  import opened Text
  import opened Command
  import opened PackageCommands

  /** The distribution the table assigns to a lower-cased system name. */
  function DistroFor(os: string): (r: Option<string>)
    ensures r.Some? <==> os == "linux" || os == "darwin"
    ensures r.Some? ==> DevelLibs(r).Success? && DevelLibs(r).value.Some?
    ensures r == Some("macos") <==> os == "darwin"
  {
    if os == "linux" then Some("fedora")
    else if os == "darwin" then Some("macos")
    else None
  }

  /** `PythonDevel.__post_init__`: reading an unset distribution raises; a
      distribution the match does not list leaves `devel_libs` unset, which
      is `Success(None)`. */
  function DevelLibs(distro: Option<string>): (r: Result<Option<seq<string>>, InstallError>)
    ensures r.Failure? <==> distro.None?
    ensures r.Failure? ==> r.error == UnsetAttribute("distro")
    ensures r.Success? ==> (r.value.Some? <==> distro.value in {"fedora", "debian", "ubuntu", "macos"})
    ensures r.Success? && r.value.Some? ==> (r.value.value == [] <==> distro.value == "macos")
    ensures distro == Some("fedora") ==> r == Success(Some(FedoraLibs))
    ensures distro == Some("debian") || distro == Some("ubuntu") ==> r == Success(Some(DebianLibs))
    ensures distro == Some("macos") ==> r == Success(Some([]))
  {
    match distro
    case None => Failure(UnsetAttribute("distro"))
    case Some(d) =>
      if d == "fedora" then Success(Some(FedoraLibs))
      else if d == "debian" || d == "ubuntu" then Success(Some(DebianLibs))
      else if d == "macos" then Success(Some([]))
      else Success(None)
  }

  /** What `PythonDevel()` ends up with on each system: the fedora list on
      linux, nothing to install on a mac, and an error elsewhere because the
      installer never got a distribution. */
  lemma DevelLibsBySystem(os: string)
    ensures os == "linux" ==> DevelLibs(DistroFor(os)) == Success(Some(FedoraLibs))
    ensures os == "darwin" ==> DevelLibs(DistroFor(os)) == Success(Some([]))
    ensures os != "linux" && os != "darwin" ==> DevelLibs(DistroFor(os)) == Failure(UnsetAttribute("distro"))
  {
  }

  /** `uninstall` and `update` call `self.extras(flags, extras)`; `extras`
      takes only `flags` positionally, so the call raises before any command
      line is built, whatever the arguments. */
  function UninstallOrUpdate(pkgs: seq<string>, pw: Option<string>, flags: Flags,
                             extras: seq<(string, string)>): (r: Result<string, InstallError>)
    ensures r == Failure(TooManyPositional)
  {
    Failure(TooManyPositional)
  }

  class SysInstaller {
    var os: Option<string>
    var arch: Option<string>
    var manager: Option<string>
    var distro: Option<string>
    var installCmd: Option<string>
    var uninstallCmd: Option<string>
    var updateCmd: Option<string>

    /** `__post_init__` on the uname fields: linux is taken for fedora with
        dnf, darwin is macos with brew, and any other system leaves the
        table's fields unset. The os-release file is read and ignored. */
    constructor (system: string, machine: string)
      ensures os == Some(Lower(system)) && arch == Some(machine)
      ensures distro == DistroFor(Lower(system))
      ensures Lower(system) == "linux" ==>
        manager == Some("dnf") && installCmd == Some("install")
          && uninstallCmd == Some("remove") && updateCmd == Some("upgrade")
      ensures Lower(system) == "darwin" ==>
        manager == Some("brew") && installCmd == Some("install")
          && uninstallCmd == Some("uninstall") && updateCmd == Some("update")
      ensures Lower(system) != "linux" && Lower(system) != "darwin" ==>
        manager == None && installCmd == None && uninstallCmd == None && updateCmd == None
    {
      var sys := Lower(system);
      os := Some(sys);
      arch := Some(machine);
      if sys == "linux" {
        distro, manager := Some("fedora"), Some("dnf");
        installCmd, uninstallCmd, updateCmd := Some("install"), Some("remove"), Some("upgrade");
      } else if sys == "darwin" {
        distro, manager := Some("macos"), Some("brew");
        installCmd, uninstallCmd, updateCmd := Some("install"), Some("uninstall"), Some("update");
      } else {
        distro, manager := None, None;
        installCmd, uninstallCmd, updateCmd := None, None, None;
      }
    }

    /** The line `install` runs: "sudo " in front when the password is
        truthy, then the manager, the verb, the extras and the packages; an
        unset manager or verb raises on the read. */
    function InstallCommand(pkgs: seq<string>, pw: Option<string>, flags: Flags,
                            extras: seq<(string, string)>): (r: Result<string, InstallError>)
      reads this`manager, this`installCmd
      ensures r.Failure? <==> manager.None? || installCmd.None?
      ensures manager.None? ==> r == Failure(UnsetAttribute("manager"))
      ensures manager.Some? && installCmd.None? ==> r == Failure(UnsetAttribute("install_cmd"))
      ensures r.Success? ==>
        r.value == CommandLine("sudo ", pw, manager.value, installCmd.value, Extras(flags, extras), pkgs)
      ensures r.Success? && IsTruthy(pw) ==> StartsWith(r.value, "sudo " + manager.value)
      ensures r.Success? && IsTruthy(pw) ==> DeriveSudo(r.value, false)
      ensures r.Success? && !IsTruthy(pw) ==> StartsWith(r.value, manager.value)
    {
      match manager
      case None => Failure(UnsetAttribute("manager"))
      case Some(m) =>
        match installCmd
        case None => Failure(UnsetAttribute("install_cmd"))
        case Some(verb) =>
          var line := CommandLine("sudo ", pw, m, verb, Extras(flags, extras), pkgs);
          assert IsTruthy(pw) ==> line[..4] == ("sudo " + m)[..4];
          Success(line)
    }
  }

  /** The installer test: on linux with the flag "-y" and no password the
      line is "dnf install -y " followed by the options and the packages. */
  lemma InstallWithoutPassword(flags: string, pkgs: seq<string>)
    ensures CommandLine("sudo ", None, "dnf", "install", Extras(FlagString(flags), []), pkgs)
      == "dnf install " + flags + " " + " " + Join(" ", pkgs)
  {
    var options: seq<(string, string)> := [];
    var e := Extras(FlagString(flags), options);
    assert e == flags + " " by {
      assert Options(options) == [];
      assert e == flags + " " + Join(" ", Options(options));
    }
    var packages := Join(" ", pkgs);
    assert CommandLine("sudo ", None, "dnf", "install", e, pkgs) == "dnf" + " " + "install" + " " + e + " " + packages by {
      assert !IsTruthy(None);
    }
    assert "dnf" + " " + "install" + " " + e + " " + packages == "dnf install " + flags + " " + " " + packages by {
      assert "dnf" + " " + "install" + " " == "dnf install ";
    }
  }
}
