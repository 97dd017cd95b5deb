/** What both installer drafts build before handing a command to the runner:
    the optional-argument string of `Installer.extras`, the package-manager
    command line, and the login shell read off `echo $SHELL`. */
module PackageCommands {
  import opened Wrappers
  import opened Text

  /** The `flags` argument: `None`, one string of space-separated flags, or
      a list of flags. */
  datatype Flags = NoFlags | FlagString(s: string) | FlagList(items: seq<string>)

  /** The exceptions the installers raise. */
  datatype InstallError =
    | UnsetAttribute(name: string)     // a field declared with `init=False` read before it is set
    | UnsupportedOs                    // `PythonDevel` on an unknown distribution
    | UnsupportedShell(shell: string)  // neither zsh nor bash
    | TooManyPositional                // `extras` handed the extras dict positionally

  /** The flags as a list: none, the string split on single spaces, or the
      list as given. */
  function FlagWords(flags: Flags): seq<string> {
    match flags
    case NoFlags => []
    case FlagString(s) => Split(s, ' ')
    case FlagList(items) => items
  }

  /** One `--key value` option per keyword argument, in the order given. */
  function Options(extras: seq<(string, string)>): seq<string> {
    seq(|extras|, i requires 0 <= i < |extras| => "--" + extras[i].0 + " " + extras[i].1)
  }

  /** `extras(flags, **extras)`: the flags joined by spaces, one space, then
      the options joined by spaces. A flag string comes back unchanged, and
      with no keyword arguments the result ends in the separating space. */
  function Extras(flags: Flags, extras: seq<(string, string)>): (r: string)
    ensures flags.FlagString? ==> r == flags.s + " " + Join(" ", Options(extras))
    ensures flags.NoFlags? ==> r == " " + Join(" ", Options(extras))
    ensures |extras| == 0 ==> r == Join(" ", FlagWords(flags)) + " "
  {
    if flags.FlagString? then
      JoinSplit(flags.s, ' ');
      Join(" ", FlagWords(flags)) + " " + Join(" ", Options(extras))
    else
      Join(" ", FlagWords(flags)) + " " + Join(" ", Options(extras))
  }

  /** The words of the options once split on spaces: each key behind its
      "--", then its value. */
  function OptionWords(extras: seq<(string, string)>): seq<string>
    decreases |extras|
  {
    if |extras| == 0 then [] else ["--" + extras[0].0, extras[0].1] + OptionWords(extras[1..])
  }

  /** No key and no value holds a space. */
  predicate CleanOptions(extras: seq<(string, string)>) {
    forall i :: 0 <= i < |extras| ==> ' ' !in extras[i].0 && ' ' !in extras[i].1
  }

  /** The joined options split back into keys and values, two words per
      option. */
  lemma {:induction false} OptionsSplit(extras: seq<(string, string)>)
    requires |extras| > 0
    requires CleanOptions(extras)
    ensures Split(Join(" ", Options(extras)), ' ') == OptionWords(extras)
    decreases |extras|
  {
    var o := Options(extras);
    var key := "--" + extras[0].0;
    var value := extras[0].1;
    assert o[0] == key + [' '] + value;
    assert Split(o[0], ' ') == [key, value] by {
      assert ' ' !in key;
      SplitWithoutSep(value, ' ');
      SplitAfterWord(key, value, ' ');
    }
    var rest := extras[1..];
    assert OptionWords(extras) == [key, value] + OptionWords(rest);
    if |extras| == 1 {
      assert Join(" ", o) == o[0];
      assert OptionWords(rest) == [];
    } else {
      assert o[1..] == Options(rest);
      assert CleanOptions(rest) by {
        forall i | 0 <= i < |rest| ensures ' ' !in rest[i].0 && ' ' !in rest[i].1 {
          assert rest[i] == extras[i + 1];
        }
      }
      OptionsSplit(rest);
      assert Join(" ", o) == o[0] + [' '] + Join(" ", Options(rest));
      SplitAppend(o[0], Join(" ", Options(rest)), ' ');
    }
  }

  /** The extras split on spaces: the flags' words, then the options' words.
      An empty side is one empty word, since the separating space stays. */
  lemma ExtrasWords(flags: Flags, extras: seq<(string, string)>)
    requires forall w :: w in FlagWords(flags) ==> ' ' !in w
    requires CleanOptions(extras)
    ensures Split(Extras(flags, extras), ' ')
         == JoinedWords(FlagWords(flags)) + JoinedWords(OptionWords(extras))
  {
    var front := Join(" ", FlagWords(flags));
    var back := Join(" ", Options(extras));
    assert Split(front, ' ') == JoinedWords(FlagWords(flags)) by {
      if |FlagWords(flags)| > 0 { SplitJoin(FlagWords(flags), ' '); }
    }
    assert Split(back, ' ') == JoinedWords(OptionWords(extras)) by {
      if |extras| > 0 { OptionsSplit(extras); }
    }
    assert Extras(flags, extras) == front + [' '] + back;
    SplitAppend(front, back, ' ');
  }

  /** A list of flags with no keyword arguments: the flags joined by spaces
      and one trailing space, which splits into the flags (one empty word
      when there are none) and an empty word. */
  lemma FlagListWithoutOptions(items: seq<string>)
    requires forall w :: w in items ==> ' ' !in w
    ensures Extras(FlagList(items), []) == Join(" ", items) + " "
    ensures Split(Extras(FlagList(items), []), ' ') == JoinedWords(items) + [""]
  {
    ExtrasWords(FlagList(items), []);
  }

  /** The call in the installer test: `extras("-y", foo="bar")`. */
  lemma ExtrasTestCase()
    ensures Extras(FlagString("-y"), [("foo", "bar")]) == "-y --foo bar"
  {
    var o := Options([("foo", "bar")]);
    assert |o| == 1;
    assert o[0] == "--" + "foo" + " " + "bar";
    assert "--" + "foo" + " " + "bar" == "--foo bar";
    assert o == ["--foo bar"];
    assert "-y" + " " + "--foo bar" == "-y --foo bar";
  }

  /** Python truthiness of the password: set and not empty. */
  predicate IsTruthy(pw: Option<string>) {
    pw.Some? && pw.value != ""
  }

  /** The command line of `install`, `uninstall` and `update`:
      `{prefix if pw}{manager} {verb} {extras} {packages}`. */
  function CommandLine(prefix: string, pw: Option<string>, manager: string, verb: string,
                       extraArgs: string, pkgs: seq<string>): (r: string)
    ensures IsTruthy(pw) ==> StartsWith(r, prefix + manager)
    ensures !IsTruthy(pw) ==> StartsWith(r, manager)
  {
    var body := manager + " " + verb + " " + extraArgs + " " + Join(" ", pkgs);
    assert (manager + (" " + verb + " " + extraArgs + " " + Join(" ", pkgs))) == body;
    assert (prefix + manager + (" " + verb + " " + extraArgs + " " + Join(" ", pkgs))) == prefix + body;
    (if IsTruthy(pw) then prefix else "") + body
  }

  /** The words a joined list splits back into: the list itself, or a
      single empty word when it is empty (the line then ends in a space). */
  function JoinedWords(pkgs: seq<string>): seq<string> {
    if |pkgs| == 0 then [""] else pkgs
  }

  /** The line after the prefix, split on spaces: the first word, the verb,
      the words of the extras, then the packages. */
  lemma BodyWords(first: string, verb: string, extraArgs: string, pkgs: seq<string>)
    requires ' ' !in first && ' ' !in verb
    requires forall p :: p in pkgs ==> ' ' !in p
    ensures Split(first + " " + verb + " " + extraArgs + " " + Join(" ", pkgs), ' ')
         == [first, verb] + Split(extraArgs, ' ') + JoinedWords(pkgs)
  {
    var packages := Join(" ", pkgs);
    var tail := extraArgs + [' '] + packages;
    assert first + " " + verb + " " + extraArgs + " " + packages == first + [' '] + (verb + [' '] + tail);
    var extraWords := Split(extraArgs, ' ');
    assert Split(tail, ' ') == extraWords + JoinedWords(pkgs) by {
      assert Split(packages, ' ') == JoinedWords(pkgs) by {
        if |pkgs| > 0 { SplitJoin(pkgs, ' '); }
      }
      SplitAppend(extraArgs, packages, ' ');
    }
    assert Split(verb + [' '] + tail, ' ') == [verb] + Split(tail, ' ') by {
      SplitAfterWord(verb, tail, ' ');
    }
    SplitAfterWord(first, verb + [' '] + tail, ' ');
  }

  /** With a prefix that is a word and a space (`"sudo "`), the line splits
      into that word when the password is truthy, then the manager, the verb,
      the extras' words and the packages; the line is those words joined by
      single spaces. */
  lemma {:induction false} SpacedPrefixWords(word: string, pw: Option<string>, manager: string, verb: string,
                                             extraArgs: string, pkgs: seq<string>)
    requires ' ' !in word && ' ' !in manager && ' ' !in verb
    requires forall p :: p in pkgs ==> ' ' !in p
    ensures var words := (if IsTruthy(pw) then [word] else []) + [manager, verb]
                         + Split(extraArgs, ' ') + JoinedWords(pkgs);
      && Split(CommandLine(word + " ", pw, manager, verb, extraArgs, pkgs), ' ') == words
      && CommandLine(word + " ", pw, manager, verb, extraArgs, pkgs) == Join(" ", words)
  {
    var line := CommandLine(word + " ", pw, manager, verb, extraArgs, pkgs);
    var body := manager + " " + verb + " " + extraArgs + " " + Join(" ", pkgs);
    var rest := [manager, verb] + Split(extraArgs, ' ') + JoinedWords(pkgs);
    assert Split(body, ' ') == rest by {
      BodyWords(manager, verb, extraArgs, pkgs);
    }
    var words := (if IsTruthy(pw) then [word] else []) + rest;
    assert Split(line, ' ') == words by {
      if IsTruthy(pw) {
        assert line == (word + " ") + body;
        assert (word + " ") + body == word + [' '] + body;
        SplitAfterWord(word, body, ' ');
      } else {
        assert line == body;
      }
    }
    assert line == Join(" ", words) by {
      JoinSplit(line, ' ');
    }
  }

  /** With a prefix glued to the manager (`"sudo"`), the first word is the
      prefix and manager run together when the password is truthy, the
      manager alone otherwise; the rest is as for a spaced prefix. */
  lemma {:induction false} GluedPrefixWords(prefix: string, pw: Option<string>, manager: string, verb: string,
                                            extraArgs: string, pkgs: seq<string>)
    requires ' ' !in prefix && ' ' !in manager && ' ' !in verb
    requires forall p :: p in pkgs ==> ' ' !in p
    ensures var words := [if IsTruthy(pw) then prefix + manager else manager, verb]
                         + Split(extraArgs, ' ') + JoinedWords(pkgs);
      && Split(CommandLine(prefix, pw, manager, verb, extraArgs, pkgs), ' ') == words
      && CommandLine(prefix, pw, manager, verb, extraArgs, pkgs) == Join(" ", words)
  {
    var line := CommandLine(prefix, pw, manager, verb, extraArgs, pkgs);
    var first := if IsTruthy(pw) then prefix + manager else manager;
    assert line == first + " " + verb + " " + extraArgs + " " + Join(" ", pkgs);
    BodyWords(first, verb, extraArgs, pkgs);
    JoinSplit(line, ' ');
  }

  /** `shell`: the last "/"-separated component of the trimmed output of
      `echo $SHELL`. */
  function ShellName(output: string): (r: string)
    ensures '/' !in r
    ensures var t := Strip(output); |r| <= |t| && t[|t| - |r|..] == r
    ensures var t := Strip(output); |r| < |t| ==> t[|t| - |r| - 1] == '/'
  {
    LastField(Strip(output), '/')
  }

  /** The development libraries both drafts list for fedora and for
      debian or ubuntu. */
  const FedoraLibs: seq<string> := [
    "curl", "git", "make", "gcc", "patch", "zlib-devel", "bzip2", "bzip2-devel", "readline-devel",
    "sqlite", "sqlite-devel", "openssl-devel", "tk-devel", "libffi-devel", "xz-devel", "libuuid-devel",
    "gdbm-devel", "libnsl2-devel", "which"]
  const DebianLibs: seq<string> := [
    "build-essential", "libssl-dev", "zlib1g-dev", "libbz2-dev", "libreadline-dev", "libsqlite3-dev",
    "curl", "libncursesw5-dev", "xz-utils", "tk-dev", "libxml2-dev", "libxmlsec1-dev", "libffi-dev",
    "liblzma-dev"]
}
