# excursor: the command runner, the installers and the small functional library, in Dafny

excursor is a collection of Python helpers. This project models four parts of it:

- **`Run`**: an asynchronous command runner, in four drafts. It derives the
  `sudo` and `shell` flags from the command. It rewrites the command for
  privilege escalation (`sudo -S -k`). It answers the password prompt on the
  child's stderr and collects the child's output into `output`. Its `run` and
  `is_ok` decide success from the exit code.
- **The installers**, in two drafts. They build package-manager command
  lines, detect the platform, pick development libraries and a shell rc
  file, and order the install and clean steps.
- **`Maybe` and `Iter`**, in two drafts: `map`, `flat_map`, `do`, `take`,
  `drop` and `where`.
- **`algos.py`**: `count`, `max`, `partition` and a quicksort.

## Modules

- **Shared modules**
  - `Wrappers`: `Option`, `Result` and `Outcome`.
  - `Seqs`: `min` and list reversal.
  - `Text`: the Python string operations the code uses, such as
    `startswith`, `in`, `split`, `join`, `replace`, `strip` and `lower`.
  - `Command`: the flag derivation, the exec vector and the shell line, and
    `run`'s exit check. All four runner drafts share these lines.
- **The child process**
  - `Streams` describes a child's stdout and stderr as sequences of chunks.
    Each `readline` or `readuntil` takes one chunk whole. A `readline` at
    end of stream gives "".
  - `Streams` also holds the pure descriptions of the two reading
    strategies.
  - `Pipes.Child` is the running child with its pipes.
  - Each runner's `_get_output` is a method of that draft's `Run` class
    that takes a `Child`. It is proved against a specification function
    that returns a `Session`: the outcome, the text written to stdin, the
    text added to `output`, and the chunks consumed from each stream.
- **One module per runner draft**
  - `Process` models `excursor/core/process.py`.
  - `Process39` models `excursor/core/process_39.py`.
  - `TaskProcess` models `excursor/core/_process.py`.
  - `TaskProcess39` models `excursor/core/_process_39.py`.
- **The installers**
  - `PackageCommands` holds what both installer drafts compute: `extras`,
    the command line, `shell` and the library lists.
  - `Installer39` models `excursor/core/installer_39.py`.
  - `Installer` models `excursor/core/installer.py`.
- **The functional library**
  - `Func` models `src/excursor/func.py`.
  - `FuncDraft` models `excursor/func.py`.
- **`Algos`** models `excursor/algos.py`.

The Python source does not always match its documentation. In each case
below, this model follows the code.

- **process.py's stderr negotiation.** When stderr ends before a "[sudo]"
  prompt, `readuntil` raises `IncompleteReadError`. The model reports this
  as the error `IncompleteRead`.
- **process_39.py's credential branch.** The branch tests
  `type(pw) == "str"`, which is never true. That draft therefore never
  answers the prompt.
- **`take` with a predicate** in `src/excursor/func.py`. It stops at the
  first element on which the predicate is true. Its docstring says false.

## Model

| member | source | states |
|---|---|---|
| Command.DeriveSudo | excursor/core/process.py:81-82 | `sudo` ends up set exactly when it was passed as true or the command starts with "sudo" |
| Command.DeriveShell | excursor/core/process.py:85-86 | `shell` ends up set exactly when it was passed as true or the command contains a space |
| Command.ExecArgv | excursor/core/process.py:170-175 | with `sudo` the words run are `sudo -S -k` followed by the unchanged command and arguments; without it they are the command and arguments |
| Command.ShellLine | excursor/core/process.py:189-193 | with `sudo` the shell line starts with "sudo -S -k "; without it, it is the command and arguments joined by single spaces |
| Command.LeadingSudoStripped | excursor/core/process.py:189-193 | a command written "sudo c", which switches escalation on, runs as "sudo -S -k " followed by c and the arguments joined by spaces when nothing else in the line is "sudo ": the leading word is replaced, never doubled |
| Command.ShellLineMatchesExec | excursor/core/process.py:170-193 | when no word contains a space and the line has no embedded "sudo ", splitting the shell line on spaces gives exactly the exec mode's word vector, with or without `sudo` |
| Command.ShellLineDnfExample | excursor/core/process.py:269 | `Run("sudo dnf", ["update", "-y"])` with `sudo` runs "sudo -S -k dnf update -y": the embedded "sudo " is stripped, so escalation is not doubled |
| Command.ExitCheck | excursor/core/process.py:164-167 | `run` raises exactly when `throw` is set and the return code is not 0, an unset return code included |
| Streams.AlternatePasses | excursor/core/process.py:225-237 | the alternating drain appends, in pass order, the i-th stdout line and then the i-th stderr line; it makes one pass per stdout line, and at least one pass |
| Streams.AlternateWithoutStderr | excursor/core/process.py:225-237 | with an empty stderr the drain gives stdout back line for line |
| Streams.Alternate | excursor/core/process.py:225-237 | the drain starts with the first stdout line and the first stderr line. It holds all of stdout and one stderr line per pass, no more, so stderr lines past the number of passes never reach `output` |
| Streams.PromptIndex | excursor/core/process.py:211-218 | the fragment the negotiation stops at is the first one that starts with "[sudo]"; no fragment before it does, and if none does there is none |
| Streams.MergeCounts | excursor/core/_process.py:123-126 | any interleaving of the two concurrent drains holds every line of both streams, and nothing else |
| Streams.AppendIsMerge | excursor/core/_process.py:123-126 | draining stdout to its end and then stderr is one of those interleavings |
| Process.Drain | excursor/core/process.py:225-237 | the drain succeeds and reads stdout to its end. It reads at least one and at most all of the remaining stderr lines (none when stderr is empty). It appends its passes in order, and what it appends is as long as all of stdout plus exactly the stderr lines it read |
| Process.IsOk | excursor/core/process.py:47-63 | the result is true exactly when the exit code equals `val`; it raises exactly when `throw` is set and a code other than `val` is set |
| Process.IsOkAgainstRun | excursor/core/process.py:47-63 | `is_ok` with `val` 0 and `run` agree on every set exit code; on an unset code `is_ok` answers false, while `run` with `throw` raises |
| Process.GetOutputSpec | excursor/core/process.py:207-239 | `sudo` with no password fails before reading anything. With a password, the password is written once, exactly when a "[sudo]" fragment exists, and otherwise the call fails. On success all of stdout is read. Without `sudo`, `output` is the alternating drain of both whole streams; with `sudo`, it is the drain of stdout and the stderr after the prompt |
| Process.PromptNeverInOutput | excursor/core/process.py:209-223 | the fragments up to and including the prompt never reach `output`; `output` holds only the drain passes over the stderr that follows the prompt |
| Process.LateStderrDropped | excursor/core/process.py:225-237 | with one stdout line and two stderr lines, `output` is the stdout line and the first stderr line only |
| Process.Run.constructor | excursor/core/process.py:66-86 | the fields take their defaults or the given values, and `sudo` and `shell` are derived from the command |
| Process.Run.WCmd | excursor/core/process.py:88-90 | replaces `cmd` and returns the runner; the flags derived from the old command stay |
| Process.Run.WArgs | excursor/core/process.py:92-94 | replaces `args` and returns the runner |
| Process.Run.WStdin | excursor/core/process.py:96-98 | replaces `stdin` and returns the runner |
| Process.Run.WStdout | excursor/core/process.py:100-102 | replaces `stdout` and returns the runner |
| Process.Run.WStderr | excursor/core/process.py:104-106 | replaces `stderr` and returns the runner |
| Process.Run.WCwd | excursor/core/process.py:108-110 | sets the attribute `dir` and leaves `cwd`, the directory the child starts in, unchanged |
| Process.Run.WShell | excursor/core/process.py:112-114 | replaces `shell` and returns the runner |
| Process.Run.WBusize | excursor/core/process.py:116-118 | replaces `bufsize` and returns the runner |
| Process.Run.WText | excursor/core/process.py:120-122 | sets `text` and returns the runner |
| Process.Run.Build | excursor/core/process.py:124-127 | fails exactly on an empty command; otherwise returns the runner itself |
| Process.Run.Call | excursor/core/process.py:158-205 | shell mode is chosen exactly when `shell` is set and runs exactly `Command.ShellLine` of the command, the arguments and `sudo`; exec mode runs exactly `Command.ExecArgv`, whose words are `sudo -S -k` (with `sudo`) then the command and arguments; both start in `cwd` and pass no environment |
| Process.Run.AwaitPrompt | excursor/core/process.py:209-218 | skips fragments up to the first "[sudo]" one, then writes `pw + "\n"` exactly once; with no prompt it fails at the end of stderr and writes nothing |
| Process.Run.DrainAlternating | excursor/core/process.py:225-237 | `output` grows by the alternating drain of the remaining streams; stdout is read to its end |
| Process.Run.GetOutput | excursor/core/process.py:207-239 | the outcome, the text written to stdin, the growth of `output` and the chunks consumed all match `Process.GetOutputSpec` |
| Process.Run.Execute | excursor/core/process.py:164-168 | a negotiation failure is returned as is; otherwise the exit check is applied after the output is read |
| Process39.IsOk | excursor/core/process_39.py:46-60 | the if-chain is true exactly when the code equals `val`, and raises exactly when `throw` is set and the code differs |
| Process39.IsOkMatchesProcess | excursor/core/process_39.py:46-60 | the if-chain and the `match` of process.py decide identically on every input |
| Process39.GetOutputSpec | excursor/core/process_39.py:204-234 | nothing is ever written to stdin; the call fails exactly when `sudo` is set without a password; otherwise it drains at once, and `output` is the alternating drain of both whole streams |
| Process39.NeverNegotiates | excursor/core/process_39.py:206-218 | apart from a missing password, this draft behaves as process.py does without `sudo` |
| Process39.PromptEchoed | excursor/core/process_39.py:206-232 | where process.py answers a "[sudo]" prompt with the password, this draft copies the prompt into `output` and never answers it |
| Process39.Run.constructor | excursor/core/process_39.py:63-83 | defaults and the derived `sudo` and `shell`, as in process.py |
| Process39.Run.WCmd | excursor/core/process_39.py:85-87 | replaces `cmd` and returns the runner, keeping the derived flags |
| Process39.Run.WArgs | excursor/core/process_39.py:89-91 | replaces `args` and returns the runner |
| Process39.Run.WStdin | excursor/core/process_39.py:93-95 | replaces `stdin` and returns the runner |
| Process39.Run.WStdout | excursor/core/process_39.py:97-99 | replaces `stdout` and returns the runner |
| Process39.Run.WStderr | excursor/core/process_39.py:101-103 | replaces `stderr` and returns the runner |
| Process39.Run.WCwd | excursor/core/process_39.py:105-107 | sets `dir` and leaves `cwd` unchanged |
| Process39.Run.WShell | excursor/core/process_39.py:109-111 | replaces `shell` and returns the runner |
| Process39.Run.WBusize | excursor/core/process_39.py:113-115 | replaces `bufsize` and returns the runner |
| Process39.Run.WText | excursor/core/process_39.py:117-119 | sets `text` and returns the runner |
| Process39.Run.Build | excursor/core/process_39.py:121-124 | fails exactly on an empty command |
| Process39.Run.Call | excursor/core/process_39.py:155-202 | exactly `Command.ShellLine` in shell mode and `Command.ExecArgv` in exec mode, as in process.py, in `cwd`, with no environment passed |
| Process39.Run.DrainAlternating | excursor/core/process_39.py:220-232 | `output` grows by the alternating drain; stdout is read to its end |
| Process39.Run.GetOutput | excursor/core/process_39.py:204-234 | the outcome, the growth of `output` and the chunks consumed match `Process39.GetOutputSpec` |
| Process39.Run.Execute | excursor/core/process_39.py:161-165 | the exit check follows a successful read |
| TaskProcess.GetOutputSpec | excursor/core/_process.py:100-128 | the password is written exactly when `sudo` and a password are given, stderr exists with a fragment, and stdin exists. The call fails on a missing password, on an empty stderr, or on a missing stdin. On success every present stream is read to its end, and `output` is all of stdout, then all of stderr after the answered fragment |
| TaskProcess.FirstFragmentAnswered | excursor/core/_process.py:102-116 | on a child with every pipe, the first fragment is answered and everything after it reaches `output` |
| TaskProcess.AnswersAnyFragment | excursor/core/_process.py:104-116 | a fragment that is not the "[sudo]" prompt gets the password here, while process.py fails waiting for the prompt |
| TaskProcess.Drains | excursor/core/_process.py:123-126 | both drains succeed and read each present stream to its end. They append every line of stdout, then every line of stderr; a missing pipe contributes nothing |
| TaskProcess.DrainsInterleave | excursor/core/_process.py:123-126 | the output of the two drains holds every line of both streams, each stream in its own order |
| TaskProcess.Run.constructor | excursor/core/_process.py:15-39 | the defaults, the derived `sudo` and `shell`, and an unset `env` replaced by the parent's environment |
| TaskProcess.Run.Call | excursor/core/_process.py:41-90 | exactly `Command.ShellLine` in shell mode and `Command.ExecArgv` in exec mode, in `cwd`, with the runner's `env` handed to the child |
| TaskProcess.Run.ReadStream | excursor/core/_process.py:92-98 | `output` grows by every remaining line of the chosen stream, in order; nothing happens when that pipe is absent; the other stream is untouched |
| TaskProcess.Run.Negotiate | excursor/core/_process.py:102-121 | no stderr means no negotiation; otherwise one fragment is read, then it fails on a missing stdin, or else writes the password once |
| TaskProcess.Run.DrainBoth | excursor/core/_process.py:123-126 | both streams are read to their ends before it returns |
| TaskProcess.Run.GetOutput | excursor/core/_process.py:100-128 | the outcome, the text written to stdin, the growth of `output` and the chunks consumed match `TaskProcess.GetOutputSpec` |
| TaskProcess.Run.Execute | excursor/core/_process.py:47-51 | the exit check follows a successful read |
| TaskProcess39.Run.constructor | excursor/core/_process_39.py:13-34 | the defaults and the derived flags; `env` is left as given |
| TaskProcess39.Run.Call | excursor/core/_process_39.py:36-83 | exactly `Command.ShellLine` in shell mode and `Command.ExecArgv` in exec mode, in `cwd`; no environment is passed, whatever `env` holds |
| TaskProcess39.Run.ReadStream | excursor/core/_process_39.py:85-91 | every remaining line of the chosen stream, in order; nothing when that pipe is absent |
| TaskProcess39.Run.Negotiate | excursor/core/_process_39.py:95-108 | one fragment is read and answered whatever it says; it fails on a missing stdin |
| TaskProcess39.Run.DrainBoth | excursor/core/_process_39.py:114-117 | both streams are read to their ends |
| TaskProcess39.Run.GetOutput | excursor/core/_process_39.py:93-119 | matches `TaskProcess.GetOutputSpec` |
| TaskProcess39.Run.Execute | excursor/core/_process_39.py:42-46 | the exit check follows a successful read |
| PackageCommands.Extras | excursor/core/installer_39.py:48-69 | a flag string comes back unchanged, followed by one space and the `--key value` options; no flags give one space and the options; with no options the result is the flags joined by spaces and a trailing space. The same method is at excursor/core/installer.py:37-47 |
| PackageCommands.OptionsSplit | excursor/core/installer_39.py:67 | when no key or value holds a space, the joined options split on spaces into each key behind "--" and then its value |
| PackageCommands.ExtrasWords | excursor/core/installer_39.py:61-69 | split on spaces, the extras are the flags' words and then the options' words; an empty side gives one empty word, because the separating space stays |
| PackageCommands.FlagListWithoutOptions | excursor/core/installer_39.py:61-69 | a list of flags with no options gives the flags joined by spaces and one trailing space, which splits back into the flags and an empty word |
| PackageCommands.ExtrasTestCase | tests/test_installer.py:15-16 | `extras("-y", foo="bar")` is "-y --foo bar" |
| PackageCommands.CommandLine | excursor/core/installer_39.py:86 | the line starts with the prefix and the manager when the password is truthy, and with the manager otherwise |
| PackageCommands.SpacedPrefixWords | excursor/core/installer_39.py:86 | with the prefix "sudo " and no space inside the manager, the verb or a package, the line split on spaces is "sudo" (only when the password is truthy), the manager, the verb, the words of the extras, then the packages (one empty word when there are none); the line is those words joined by single spaces |
| PackageCommands.GluedPrefixWords | excursor/core/installer_39.py:101-116 | with the prefix "sudo" the first word is "sudo" and the manager run together when the password is truthy, the manager alone otherwise; then the verb, the extras' words and the packages, and the line is those words joined by single spaces |
| PackageCommands.ShellName | excursor/core/installer_39.py:247 | the result contains no "/"; it is a suffix of the stripped output, and it is preceded by a "/" unless it is the whole output. The same expression is at excursor/core/installer.py:186 |
| Installer39.SystemOf | excursor/core/installer_39.py:163-182 | linux with x86_64 or arm64 keeps its architecture. darwin with either is a mac reported as arm64. Anything else is unsupported and x86_64 |
| Installer39.NameLine | excursor/core/installer_39.py:136-154 | a line not starting with NAME changes nothing. A NAME line sets a distribution other than mac and the manager that goes with it (dnf for fedora, centos and amazon; apt for debian, ubuntu and an unknown name); a line naming fedora gives fedora; `uninstall_cmd` becomes "remove" exactly on the debian and ubuntu branches and is kept otherwise |
| Installer39.ReleaseScan | excursor/core/installer_39.py:134-154 | a file without a NAME line leaves the fields as they were; with one, the distribution is set and the manager matches it |
| Installer39.ScanRemoveIff | excursor/core/installer_39.py:132-154 | `uninstall_cmd` becomes "remove" exactly when some NAME line takes the debian or ubuntu branch |
| Installer39.DevelLibs | excursor/core/installer_39.py:223-240 | fedora and amazon get the fedora list (with "gcc"), debian and ubuntu the debian list, mac the mac list; centos and "unsupported" raise "unsupported os type", and an unset distribution raises on the read |
| Installer39.DistroOf | excursor/core/installer_39.py:155-161 | linux is settled on fedora and a mac on "mac", and the manager that goes with each is dnf or brew; an unsupported system gets no distribution |
| Installer39.DevelLibsBySystem | excursor/core/installer_39.py:223-240 | what `PythonDevel()` gets on each system: the fedora list on linux whatever os-release names, the mac list on darwin, and the unset-distribution error elsewhere; the list exists exactly for linux or darwin on x86_64 or arm64 |
| Installer39.RcFile | excursor/core/installer_39.py:313-319 | ".zshrc" or ".bashrc" for zsh and bash; any other shell raises |
| Installer39.CommentLine | excursor/core/installer_39.py:298-300 | a line sourcing asdf becomes "# ", the line, and a newline; any other line is unchanged |
| Installer39.CommentOutAsdf | excursor/core/installer_39.py:292-300 | the new rc holds one line per old line, each rewritten by `CommentLine` |
| Installer39.Plan | excursor/core/installer_39.py:434-457 | at most four actions, each of the mode's kind and with its option given; none of "sys", "asdf", "poetry" and "venv" given plans nothing |
| Installer39.PlanContents | excursor/core/installer_39.py:434-457 | an action is planned exactly when its option is given and it is of the mode's kind. Installs are ordered sys, asdf, poetry, venv and cleanups are ordered the reverse way, so no action appears twice |
| Installer39.FullSelectsNothing | excursor/core/installer_39.py:464-475 | the accepted option "full" selects no action |
| Installer39.CleanReversesInstall | excursor/core/installer_39.py:439-457 | the clean plan undoes the install plan of the same options in reverse order |
| Installer39.InstallActions | excursor/core/installer_39.py:434-457 | the appended action list is the plan |
| Installer39.SysInstaller.constructor | excursor/core/installer_39.py:128-161 | the four keyword-only verbs of `Installer` (lines 43-46) are stored as given, each defaulting to its own name. On linux the result is fedora and dnf whatever os-release says, and `uninstall_cmd` is "remove" exactly when it was given so or an apt branch was taken, the given value otherwise. On a mac it is mac and brew. When unsupported, distro and manager stay unset |
| Installer39.SysInstaller.GetSystem | excursor/core/installer_39.py:163-182 | `os` and `arch` follow the table of the lower-cased system name and the machine |
| Installer39.SysInstaller.ScanRelease | excursor/core/installer_39.py:132-154 | the loop leaves the fields as the line-by-line scan does |
| Installer39.SysInstaller.InstallCommand | excursor/core/installer_39.py:77-89 | an unset manager raises. Otherwise the line is `CommandLine` with the prefix "sudo ", the manager's name, `install_cmd`, the extras and the packages; with a truthy password it starts with "sudo " and the manager's name, and the runner escalates it |
| Installer39.SysInstaller.UninstallCommand | excursor/core/installer_39.py:92-104 | an unset manager raises. Otherwise the line is `CommandLine` with the glued prefix "sudo", the manager's name, `uninstall_cmd`, the extras and the packages |
| Installer39.SysInstaller.UpdateCommand | excursor/core/installer_39.py:107-119 | the same layout with the glued "sudo" prefix, for `update_cmd` |
| Installer39.GluedSudoOnDnf | excursor/core/installer_39.py:101 | the uninstall line on dnf with a password starts "sudodnf", not "sudo " |
| Installer.DevelLibs | excursor/core/installer.py:164-180 | an unset distribution raises. fedora gets the fedora list, debian and ubuntu the debian list, macos the empty list. Any other distribution leaves the list unset |
| Installer.DistroFor | excursor/core/installer.py:107-124 | exactly linux and darwin get a distribution, and it has a library list; darwin's is "macos" |
| Installer.DevelLibsBySystem | excursor/core/installer.py:164-180 | on linux the result is the fedora list and on darwin nothing to install; any other system raises because no distribution was assigned |
| Installer.UninstallOrUpdate | excursor/core/installer.py:70-97 | both fail for every argument: the options are passed positionally to `extras` |
| Installer.SysInstaller.constructor | excursor/core/installer.py:104-124 | linux gives fedora/dnf/install/remove/upgrade and darwin gives macos/brew/install/uninstall/update; any other system leaves these fields unset; `os` is the lower-cased system name |
| Installer.SysInstaller.InstallCommand | excursor/core/installer.py:55-67 | an unset manager, then an unset verb, raises. Otherwise the line is `CommandLine` with the prefix "sudo ", the manager, `install_cmd`, the extras and the packages; with a truthy password it starts with "sudo " and the manager, and the runner escalates it |
| Installer.InstallWithoutPassword | tests/test_installer.py:18 | with no password and the flag "-y", the line is "dnf install -y", then the options and the packages |
| Func.MapValue | src/excursor/func.py:34-39 | `None` stays `None` without calling `fun`; a value becomes whatever `fun` returns |
| Func.NoneShortCircuits | src/excursor/func.py:34-39 | once a function in a chain of `map` calls gives `None`, the whole chain ends in `None` |
| Func.MapCompose | src/excursor/func.py:34-39 | two maps equal one map with the composed function |
| Func.ModuleExample | src/excursor/func.py:180-189 | the module's own example gives 11 and then 32 |
| Func.MaybeTest | tests/test_func.py:5-15 | 10 doubled plus 5 is 25; after a function giving `None`, the chain stays `None` |
| Func.Maybe.constructor | src/excursor/func.py:30-32 | holds the given value |
| Func.Maybe.Map | src/excursor/func.py:34-39 | returns a new `Maybe` holding `MapValue` of the value |
| Func.Maybe.FlatMap | src/excursor/func.py:41-46 | on a value it returns the very object `fun` returns; on `None` it returns a new empty one |
| Func.Maybe.Do | src/excursor/func.py:66-72 | on a value it replaces the value in place and returns itself; on `None` it returns a new empty `Maybe` and leaves itself unchanged |
| Func.MapSeq | src/excursor/func.py:83-84 | `fun` is applied to each element; length and order are kept |
| Func.Prefix | src/excursor/func.py:107-111 | the first `min(until, n)` elements |
| Func.Suffix | src/excursor/func.py:142-146 | the elements from index `until` on |
| Func.TakeDropCount | src/excursor/func.py:107-146 | for any count `take` accepts, `take` then `drop` of the same count rebuilds the sequence |
| Func.Taken | src/excursor/func.py:112-119 | the prefix taken is the longest one on which the predicate is false; it stops at the first element where the predicate is true |
| Func.Dropped | src/excursor/func.py:147-155 | the prefix dropped is the longest one on which the predicate is true |
| Func.TakeDropPredicate | src/excursor/func.py:86-155 | `take(fn)` and `drop` with the negated predicate split the sequence exactly |
| Func.SamePredicateLoses | src/excursor/func.py:86-155 | `take` and `drop` with the same predicate are not complements: `[1]` with a predicate that always holds loses its element |
| Func.DropKeepsLaterMatches | src/excursor/func.py:147-155 | once the predicate fails, later elements on which it holds are still kept |
| Func.Filter | src/excursor/func.py:160-175 | the result is no longer than the input, and every element of it satisfies `select` and comes from the input |
| Func.FilterKeeps | src/excursor/func.py:160-175 | every element of the input that satisfies `select` is kept |
| Func.FilterAppend | src/excursor/func.py:160-175 | filtering keeps the order: it distributes over concatenation |
| Func.FilterIdempotent | src/excursor/func.py:160-175 | filtering twice with the same predicate is filtering once |
| Func.Iter.constructor | src/excursor/func.py:80-81 | holds the given elements |
| Func.Iter.Map | src/excursor/func.py:83-84 | returns a new `Iter` over the mapped elements |
| Func.Iter.TakeCount | src/excursor/func.py:107-111 | fails exactly when the count is below 1; otherwise returns a new `Iter` over the prefix |
| Func.Iter.TakeUntil | src/excursor/func.py:112-119 | the generator loop yields exactly the elements before the first one where the predicate is true |
| Func.Iter.DropCount | src/excursor/func.py:142-146 | fails exactly on a negative count; otherwise returns a new `Iter` over the suffix |
| Func.Iter.DropWhile | src/excursor/func.py:147-155 | the generator loop with its `matched` flag yields exactly the elements from the first one where the predicate is false |
| Func.Iter.Where | src/excursor/func.py:160-175 | replaces the elements in place by the filtered ones and returns itself |
| FuncDraft.Map | excursor/func.py:25-30 | `None` gives an empty `Maybe` without calling `fun`; a value is wrapped as whatever `fun` returns |
| FuncDraft.MapAgreesWithFunc | excursor/func.py:25-30 | the draft's `map` and the later module's `map` agree |
| FuncDraft.ModuleExample | excursor/func.py:49-55 | 10 doubled plus 5 is 25, and after a function giving `None` the result is `None` |
| FuncDraft.MakeIter | excursor/func.py:38-39 | construction always turns the contents into a generator |
| FuncDraft.MapIter | excursor/func.py:41-42 | the result is a generator over the mapped elements, with length and order kept |
| FuncDraft.Take | excursor/func.py:44-46 | fails exactly on a generator. On a list, which construction never leaves behind, it would keep the first `min(len, num)` elements |
| FuncDraft.TakeAlwaysRaises | excursor/func.py:38-46 | `take` fails on every `Iter` built by the constructor or by `map` |
| Algos.Count | excursor/algos.py:8-13 | the result is `tot` plus the length |
| Algos.Max | excursor/algos.py:16-25 | an empty list gives `m`. Otherwise the result is at least every element and at least `m` when set, and it is one of the elements or `m` |
| Algos.SplitPermutes | excursor/algos.py:32-35 | the elements below the pivot value and those at or above it together are the input |
| Algos.PartitionPermutes | excursor/algos.py:28-37 | `lesser`, the pivot value and the remaining `arr` together are a permutation of the input |
| Algos.Partition | excursor/algos.py:28-37 | pops `arr[pivot]` as `p_val`. `lesser` is the smaller remaining elements in reverse order. `arr` keeps the others in their order and is returned itself |
| Algos.PopSmaller | excursor/algos.py:32-35 | the reverse-index loop pops exactly the smaller elements, appending them in reverse order |
| Algos.Qs | excursor/algos.py:40-54 | for any pivot choice the result is sorted and a permutation of the input. A list of at most two elements is sorted in place and returned; in the recursive case the caller's list keeps only elements it had |
| Algos.SortPair | excursor/algos.py:42-45 | the two elements are swapped exactly when the first is the greater, so the list ends up sorted with the same elements |
| Algos.SortAround | excursor/algos.py:50-54 | the recursive case gives a sorted permutation, and the caller's list keeps only elements it had |
| Algos.PartitionKeeps | excursor/algos.py:28-37 | what `partition` leaves in `arr` is part of the original list |
| Algos.SortedAround | excursor/algos.py:49-54 | the sorted smaller part, the pivot value and the sorted rest join into a sorted permutation of the list |

## Left out

- Asynchronous execution, `print`, `launch`, `ChildProcess`, and
  `ProcessResult` other than `is_ok`. The model does not describe the event
  loop or transports, and printing has no effect on the state modelled.
- Bytes and decoding. Streams carry text, and each `readline` or
  `readuntil` delivers one whole chunk. The model does not describe how
  the child's bytes are cut into chunks.
- `at_eof` is taken to be known as soon as the last chunk is read. In
  asyncio it can need one more empty read.
- `Process.Run.AwaitPrompt`: stderr ending before the prompt raises
  `IncompleteReadError` in the code. The model reports it as the error
  `IncompleteRead` rather than an exception that escapes.
- The two concurrent drains of `_process.py` and `_process_39.py` are
  modelled stdout first, then stderr. `Streams.MergeCounts` states what
  every other interleaving keeps, but the run-time scheduling is not
  modelled.
- The `while True` of the `_process` drafts' negotiation always leaves in
  its first pass, so it is modelled as one step.
- The `type(pw) == "str"` branch of `process_39.py` cannot be taken, so it
  is not modelled. `Process39.GetOutputSpec` states that nothing is
  written.
- `os.environ` is a parameter (`environ`) of the `TaskProcess` constructor.
  The installers' changes to `os.environ` (`set_asdf_path`,
  `set_local_path`, `_create_project`) are not modelled, because they
  only change the process environment.
- `platform.uname()`, `/etc/os-release`, `.zshrc` and `echo $SHELL` are
  inputs. File writes, `shutil` calls and `subprocess.call` are not
  modelled.
- The installer steps that only run commands are represented by
  `Installer39.Action`, without their command sequences:
  `_install_sysdeps`, `_install_asdf`, `_install_poetry`, `_create_venv`,
  `_create_project`, the `_uninstall_*` steps, `which`, `is_installed` and
  `_check_venv`.
- `Text.Strip` and `Text.Lower` cover ASCII whitespace and ASCII letters
  only. Python's Unicode whitespace and case mapping are not modelled.
- `Text.Replace` does not model an empty pattern. The code only replaces
  "sudo ".
- `map_async`, `flat_map_async` and `collect` in `src/excursor/func.py`
  are not modelled; they only run a coroutine or hand the generator over.
- Generators are modelled as the finite sequences they would yield. Lazy
  evaluation, the sharing of one generator between `Iter` objects, and
  infinite iterables are not modelled.
- `Algos.Partition` requires a pivot index in range, counting negative
  indices from the end. `list.pop`'s `IndexError` is not modelled.
- `Algos.Qs` takes the pivot from a function `pick`, which stands for
  `randint`. `pick` must return an index of the list it is given.
- `Algos.Qs`: in the recursive case it states only that the caller's list
  keeps some of its own elements. The exact contents `partition` and the
  nested sorts leave there are not stated.
