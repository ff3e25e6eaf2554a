# dotbot-brew, modelled in Dafny

dotbot-brew is a dotbot plugin that registers five configuration directives:
`install-brew`, `brew`, `cask`, `tap` and `brewfile`. It turns each of them
into Homebrew shell commands. This project models the plugin class of
`brew.py` and proves what each directive does:

- which commands it issues, in which order, and with which standard streams;
- which boolean it reports back to dotbot.

The shell is an oracle. The i-th command the plugin issues, counting from 0
over the plugin's life, exits with `exitCode(i)`. The plugin object keeps a
`trace` of every command issued so far, together with what the command's
three standard streams are bound to. A stream is bound either to the null
device or to descriptor 1, the parent's standard output. The second case
happens because `_invoke_shell_command` passes the bool `True`, and
`subprocess.call` takes a bool as the integer file descriptor it equals.

The project has five modules:

- `PackageName` (`package_name.dfy`) models how `_install` extracts the name
  of a package from a target such as `tap/pkg --flag`. The extraction uses
  Python's `re.search` with `^(?:.+/)?(.+?)(?: .+)?$`, and the model follows
  Python's semantics exactly:
  - `.` never matches a line break;
  - `$` also matches just before one final line break;
  - the tap group is greedy and the name group is lazy.

  `ParseName` matches exactly when the target, less one final line break, is
  a non-empty single line. On a match, group 1 is the first match in
  backtracking order. The lemmas prove three things:
  - that match precedes every other match;
  - the tap and the flags are stripped;
  - the name is a non-empty part of the target.

  Edge cases are pinned down by example lemmas. One of them concerns a target
  whose flags contain a slash, such as `tap/pkg --opt=a/b`. The greedy tap
  group takes that slash, so the code extracts `b`. The model follows the
  code here, not the intent the code's comment states ("take out tap names
  and flags").
- `Templates` (`templates.dfy`) models the command templates. Each template
  is pre-split into literal text and replacement fields, and
  `str.format(key=value)` becomes `Format`, which substitutes one value for
  every field.
- `Options` (`options.dfy`) models three things:
  - the directive table and `can_handle`;
  - the built-in stream defaults of `__init__`;
  - the key-by-key merge `handle` performs, in which the user's value wins.
- `Runs` (`runs.dfy`) defines the directives as values. Each run is a
  `Step`: the commands issued plus the boolean reported.
  - `InstallStep` is `_install` for one target.
  - `Batch` is the loop shared by `_brew`, `_cask`, `_tap` and `_brewfile`.
    It runs every element in order without stopping early and reports the
    conjunction.
  - `BootstrapStep` is `_install_brew`.
- `Plugin` (`brew.dfy`) holds the plugin as a class. Its methods append to
  `trace` through `Call`, which stands for `subprocess.call`. Each method is
  proved to issue exactly the commands of its value-level run, and to return
  that run's result.

## Model

| member | source | states |
|---|---|---|
| PackageName.IsMatch | brew.py:135 | defines which spans the pattern accepts on a line, as a tap prefix ending at `p` and a name from `p` to `e`: the prefix is empty or ends just after a '/' with at least one character before it (`(?:.+/)?`); the name is non-empty (`(.+?)`); at `e` the line ends, or a space is followed by at least one more character (`(?: .+)?$`) |
| PackageName.Precedes | brew.py:135 | defines the order in which the backtracking search tries spans: a longer tap prefix first (greedy `.+`), then, for the same prefix, a shorter name (lazy `.+?`) |
| PackageName.Line | brew.py:135 | the line `^`…`$` must span: the target itself, or, when the target ends in one '\n', the target without it; a target without line breaks is kept whole |
| PackageName.PrefixEnd | brew.py:135 | the greedy tap group `(?:.+/)?` ends after the last slash that has at least one character before it and at least one after it, or is empty when there is no such slash |
| PackageName.NameEnd | brew.py:135 | the lazy name group `(.+?)` stops at the first place where the rest of the line can be matched by `(?: .+)?$`: the end of the line, or a space with at least one character after it |
| PackageName.NameSpan | brew.py:135 | on a non-empty single line, the tap/name split it returns is a match of the whole pattern |
| PackageName.ExtractName | brew.py:135-141 | group 1 is non-empty, no longer than the target, and occurs in it as a contiguous substring |
| PackageName.ParseName | brew.py:135-141 | `re.search` finds a match iff the target, less one final line break, is non-empty and holds no line break; an empty target gives no match; a name is non-empty and occurs in the target as a contiguous substring |
| PackageName.NameSpanIsFirstMatch | brew.py:135 | the span `NameSpan` picks precedes every other match in backtracking order: a longer tap prefix first, then a shorter name |
| PackageName.ParseNameIsFirstMatch | brew.py:135-141 | when there is a match, the name is `Line(s)[p..e]` for a match `(p, e)` of the pattern that precedes every other match in backtracking order, which is group 1 of the match `re.search` reports |
| PackageName.FirstMatchIsNameSpan | brew.py:135 | conversely, a match that precedes every other match is the one `NameSpan` picks, so the first match is unique |
| PackageName.FirstMatchByScan | brew.py:135 | a match with no usable tap slash at or after its start and no name boundary inside its name is the first match |
| PackageName.TapAndFlagsStripped | brew.py:133-141 | for `tap/name flags`, where the tap and flags are optional, the name has no slash or space and the flags have no slash, the extracted name is exactly `name` |
| PackageName.ExampleBare | brew.py:133-135 | `pkg` gives `pkg` |
| PackageName.ExampleTapped | brew.py:133-135 | `tap/pkg` gives `pkg` |
| PackageName.ExampleTappedWithFlags | brew.py:133-135 | `tap/pkg --flag` gives `pkg` |
| PackageName.EdgeSlashAtEnds | brew.py:135 | a slash at the start or at the end of the target does not end a tap: `/pkg` and `tap/` are kept whole |
| PackageName.EdgeTrailingSpace | brew.py:135 | a trailing space with nothing after it stays in the name |
| PackageName.EdgeSlashInFlags | brew.py:135 | the greedy tap group takes a slash inside the flags: `tap/pkg --opt=a/b` gives `b` |
| PackageName.EdgeLineBreaks | brew.py:135-139 | one final line break is ignored (`pkg\n` gives `pkg`); a lone line break or an inner one means no match |
| Templates.Format | brew.py:145 | defines `str.format(key=value)` on a template whose fields are all named `key`: text pieces are copied and every field becomes `value` |
| Templates.FormatLength | brew.py:145 | a filled-in template is its literal text plus one copy of the value per field |
| Templates.FormatAppend | brew.py:145 | filling in distributes over concatenation of templates |
| Templates.FormatWithoutFields | brew.py:184-186 | a template without fields, like the bootstrap command, formats to the same command whatever the value |
| Templates.FormatInjective | brew.py:145 | a template with a field determines the value it was filled in with, so different names give different check commands |
| Options.CanHandle | brew.py:53-54 | true exactly for the names of the five directives |
| Options.Handler | brew.py:17-23 | the handler registered under a handled name is the directive of that name |
| Options.NameIsKey | brew.py:17-23 | every directive is registered under its own name |
| Options.MergedDefaults | brew.py:57-59 | defines the options `handle` passes on: the built-in entry for the directive (`{}` when absent) merged with the user's entry (`{}` when absent) |
| Options.HandleOf | brew.py:68-70 | defines what one stream is bound to: a true flag passes `True`, which `subprocess.call` takes as descriptor 1, the parent's standard output; a false flag passes the null device |
| Options.StreamsOf | brew.py:62-71 | defines the three bindings `_invoke_shell_command` reads from the options' "stdin", "stdout" and "stderr" flags |
| Options.BuiltinDefaultsTable | brew.py:24-50 | the built-in defaults have exactly the five directives as keys; brew, cask and tap set all three streams to the null device, and brewfile and install-brew pass `True` for all three |
| Options.Merge | brew.py:59 | the merged keys are the union of both key sets; the user's value wins on every key it gives, and the built-in value is kept elsewhere |
| Options.MergedStreams | brew.py:24-50 | for every handled directive, the merged options hold all three stream flags; each flag is the user's where the user set it, and otherwise the built-in one (the null device for brew, cask and tap; descriptor 1 for brewfile and install-brew) |
| Options.NoOverride | brew.py:57-59 | without user overrides, a directive runs with its built-in defaults |
| Runs.Truthy | brew.py:180 | defines the truthiness `not val` tests: a boolean is itself; a list is true iff it is non-empty |
| Runs.InstallStep | brew.py:126-164 | defines `_install` for one target as the commands it issues and its result; what it promises is stated by `Runs.InstallStepBehaviour` |
| Runs.BrewCommands | brew.py:91-93 | `_brew` installs with `/opt/homebrew/bin/brew install ` followed by the full target, and checks with `test -d /opt/homebrew/Cellar/<name> \|\| /opt/homebrew/bin/brew ls --versions <name>` |
| Runs.CaskCommands | brew.py:111-113 | `_cask` installs with `/opt/homebrew/bin/brew install --cask ` followed by the full target, and checks with `test -d /opt/homebrew/Caskroom/<name> \|\| /opt/homebrew/bin/brew ls --cask --versions <name>` |
| Runs.TapCommandText | brew.py:78 | `_tap` runs `brew tap ` followed by the tap, with no `/opt/homebrew/bin/` prefix |
| Runs.BundleCommandText | brew.py:171 | `_brewfile` runs `/opt/homebrew/bin/brew bundle --verbose --file=` followed by the file |
| Runs.InstallStepBehaviour | brew.py:126-164 | see the breakdown after this table |
| Runs.Steps | brew.py:76-84 | exactly one step per element (its length is the list's); which step each element gets is stated by `Runs.StepsAt` |
| Runs.Batch | brew.py:76-84 | defines a list directive's run: the commands of every element's step, in order, and the conjunction of their results; stated by `Runs.BatchOk` and `Runs.StepsAt` |
| Runs.StepsSnoc | brew.py:89-99 | processing one more element appends its step, which starts where the earlier elements' commands end |
| Runs.StepsExtend | brew.py:89-99 | one loop iteration: the commands so far, followed by the next element's, are those of the longer prefix; the flag stays true iff that element's step succeeded |
| Runs.StepsAt | brew.py:89-99 | element k gets exactly its own step, whatever happened before it, starting right after the earlier commands; the batch's commands continue with that step's |
| Runs.BatchOk | brew.py:87-104 | a batch reports true iff every element's step succeeded; an empty list issues nothing and reports true |
| Runs.RunEachCommands | brew.py:73-84 | see the breakdown after this table |
| Runs.StepCommandIssued | brew.py:89-99 | every command of every element's step is among the batch's commands |
| Runs.EveryPackageChecked | brew.py:89-119 | `_brew` and `_cask` run the check command of every package that has a name, even after earlier packages failed |
| Runs.BootstrapStep | brew.py:179-186 | defines `_install_brew`: a false value issues nothing and fails; otherwise `_install` of `brew` with the bootstrap templates; stated by `Runs.BootstrapBehaviour` |
| Runs.StepperOf | brew.py:73-177 | defines the per-element step of each list directive: check-then-install with the formula templates for brew and with the cask templates for cask, and one command with the `brew tap` template for tap or with the bundle template for brewfile |
| Runs.DirectiveRun | brew.py:60 | defines the dispatch: `install-brew` runs the bootstrap, each list directive the batch of its per-element step |
| Runs.BootstrapBehaviour | brew.py:179-186 | see the breakdown after this table |
| Plugin.Brew.constructor | brew.py:16-51 | a new plugin has issued no command and keeps the oracle and the user's defaults |
| Plugin.Brew.Call | brew.py:144-151 | one child process: the command is appended to the trace, and its exit status is the oracle's answer for its position |
| Plugin.Brew.InvokeShellCommand | brew.py:62-71 | the command runs with the three streams the options select |
| Plugin.Brew.Handle | brew.py:56-60 | see the breakdown after this table |
| Plugin.Brew.Tap | brew.py:73-84 | issues exactly the commands of the `brew tap` batch over the taps and returns its result |
| Plugin.Brew.BrewPackages | brew.py:86-104 | issues exactly the commands of the check-then-install batch with the formula templates and returns its result |
| Plugin.Brew.Cask | brew.py:106-124 | issues exactly the commands of the check-then-install batch with the cask templates and returns its result |
| Plugin.Brew.Brewfile | brew.py:166-177 | issues exactly the commands of the `brew bundle` batch over the files and returns its result |
| Plugin.Brew.InstallBrew | brew.py:179-186 | issues exactly the commands of the bootstrap run and returns its result |
| Plugin.Brew.Install | brew.py:126-164 | issues exactly the commands of `InstallStep` for the target and returns its result |
| Plugin.Brew.InstallEach | brew.py:89-99 | the loop: every package's step in order, with no early exit; returns the conjunction |
| Plugin.Brew.RunEach | brew.py:76-84 | the loop: one command per element in order, with no early exit; returns the conjunction |

Rows whose contract has several parts:

- `Runs.InstallStepBehaviour` states what `_install` does for one target:
  - a target without a name, such as an empty one, issues no command and fails;
  - otherwise the first command is the check template filled in with the extracted name, with every stream on the null device;
  - the install template filled in with the full target follows, with the streams the directive's options select, exactly when the check exited non-zero;
  - at most two commands are issued;
  - the result is true iff the last command exited 0.
- `Runs.RunEachCommands` states what `_tap` and `_brewfile` do:
  - exactly one command per element, in list order;
  - each command is the template filled in with its element;
  - the result is true iff every one of those commands exited 0.
- `Runs.BootstrapBehaviour` states what `_install_brew` does:
  - a false value issues nothing and fails;
  - a true value runs `command -v /opt/homebrew/bin/brew` with every stream on the null device, and returns true if that exits 0;
  - otherwise it runs the curl bootstrap script with the streams the directive's options select, and the result is that script's exit status being 0.
- `Plugin.Brew.Handle` states what `handle` does:
  - the merged options hold the three stream flags;
  - the dispatched handler issues exactly the commands of the directive's run, under the merged options;
  - it returns that run's result.

## Left out

- Process plumbing is left out: `os.devnull`, the working directory and the `subprocess` stream wiring. A command is recorded with what each of its three streams is bound to, and its exit status comes from the oracle `exitCode`. Whatever the shell actually does is outside the model.
- The model records that a true flag binds the stream to descriptor 1, the parent's standard output, for stdin and stderr as well as stdout. It does not capture the consequences. The child reads its standard input from the parent's standard output descriptor, and its error output goes to the parent's standard output, not to the parent's standard error. Only for stdout does a true flag amount to inheriting the parent's stream.
- Logging (`self._log`) is left out, because it does not affect what is returned or run. This includes the warning at line 162 that lacks its `f` prefix and so prints `{pkg}` literally.
- The dotbot framework is left out. `self._context.defaults()` is the constructor argument `userDefaults`, and dotbot calling `can_handle` before `handle` appears as `Plugin.Brew.Handle`'s requirement `Options.CanHandle(directive)`. Python raises `KeyError` for an unknown directive, and that path is not modelled.
- Plugin.Brew.Handle: requires list data for the four list directives. Python would iterate a string character by character, or raise `TypeError` on a boolean, and those paths are not modelled. List elements are strings.
- Option values are booleans. Python accepts any truthy value there. For `install-brew`, the data's truthiness is modelled for booleans and lists only (`Runs.Truthy`).
- Python format strings are taken already split into text and fields. The Python parsing of `{…}` and brace escapes is not modelled. None of the templates in `brew.py` contains an escaped brace.
- Plugin.Brew.Install, Plugin.Brew.InstallEach, Plugin.Brew.RunEach and the directive methods require the three stream flags in their options. `_invoke_shell_command` would raise `KeyError` without them. `handle` always supplies them, as `Options.MergedStreams` proves.
