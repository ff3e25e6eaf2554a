/** The plugin's directive table and the per-directive stream defaults that
    `__init__` sets up, `can_handle`, and the merge `handle` performs before
    dispatching: built-in defaults overridden key by key by the user's. */
module Options {

  /** The five directives the plugin registers. */
  datatype Directive = InstallBrew | Brew | Cask | Tap | Brewfile

  /** Stream settings of one directive: "stdin", "stdout", "stderr" to a flag
      that says whether `_invoke_shell_command` passes the bool `True` for
      that stream (true) or an open handle on the null device (false). */
  type Defaults = map<string, bool>

  /** Configuration key of each directive. */
  function Name(d: Directive): string {
    match d
    case InstallBrew => "install-brew"
    case Brew => "brew"
    case Cask => "cask"
    case Tap => "tap"
    case Brewfile => "brewfile"
  }

  /** The directive table built in `__init__`. */
  const Handlers: map<string, Directive> :=
    map["install-brew" := InstallBrew, "brew" := Brew, "cask" := Cask, "tap" := Tap, "brewfile" := Brewfile]

  /** `can_handle`: the directive is one of the table's keys. */
  function CanHandle(directive: string): (b: bool)
    ensures b <==> exists d: Directive :: Name(d) == directive
  {
    assert directive in Handlers ==> Name(Handlers[directive]) == directive;
    directive in Handlers
  }

  /** The handler `handle` dispatches to: the one registered under the name. */
  function Handler(directive: string): (d: Directive)
    requires CanHandle(directive)
    ensures Name(d) == directive
  {
    Handlers[directive]
  }

  /** Every directive is registered under its own name. */
  lemma NameIsKey(d: Directive)
    ensures Name(d) in Handlers && Handlers[Name(d)] == d
  {
  }

  /** All three streams set to `b`. */
  function Uniform(b: bool): Defaults {
    map["stdin" := b, "stderr" := b, "stdout" := b]
  }

  /** The built-in defaults of `__init__`: packages, casks and taps send
      every stream to the null device; bundle files and the bootstrap pass
      `True` for every stream. */
  const BuiltinDefaults: map<string, Defaults> :=
    map[
      "brew" := Uniform(false),
      "cask" := Uniform(false),
      "brewfile" := Uniform(true),
      "install-brew" := Uniform(true),
      "tap" := Uniform(false)
    ]

  /** Every directive has built-in defaults, and only directives do: all three
      streams on the null device for brew, cask and tap, all three passed
      `True` for brewfile and install-brew. */
  lemma BuiltinDefaultsTable(d: Directive)
    ensures BuiltinDefaults.Keys == Handlers.Keys
    ensures Name(d) in BuiltinDefaults
    ensures BuiltinDefaults[Name(d)] == Uniform(d == Brewfile || d == InstallBrew)
  {
  }

  /** `m.get(key, {})`. */
  function Get(m: map<string, Defaults>, key: string): Defaults {
    if key in m then m[key] else map[]
  }

  /** `{**local, **user}`: the user's value wins on every key the user gives. */
  function Merge(local: Defaults, user: Defaults): (merged: Defaults)
    ensures merged.Keys == local.Keys + user.Keys
    ensures forall k | k in user :: merged[k] == user[k]
    ensures forall k | k in local && k !in user :: merged[k] == local[k]
  {
    local + user
  }

  /** The options `handle` passes to the directive's handler. */
  function MergedDefaults(directive: string, userDefaults: map<string, Defaults>): Defaults {
    Merge(Get(BuiltinDefaults, directive), Get(userDefaults, directive))
  }

  /** The three stream flags `_invoke_shell_command` reads. */
  predicate HasStreams(defaults: Defaults) {
    "stdin" in defaults && "stdout" in defaults && "stderr" in defaults
  }

  /** What a child's standard stream is bound to. `subprocess.call` takes the
      bool `True` as the integer file descriptor 1, the parent's standard
      output, whichever of the three streams it is passed for; otherwise the
      stream is an open handle on the null device. */
  datatype Handle = ParentStdout | DevNull

  /** The handle an option flag selects. */
  function HandleOf(flag: bool): Handle {
    if flag then ParentStdout else DevNull
  }

  datatype Streams = Streams(stdin: Handle, stdout: Handle, stderr: Handle)

  /** The streams of the check command: all three on the null device. */
  const Quiet := Streams(DevNull, DevNull, DevNull)

  function StreamsOf(defaults: Defaults): Streams
    requires HasStreams(defaults)
  {
    Streams(HandleOf(defaults["stdin"]), HandleOf(defaults["stdout"]), HandleOf(defaults["stderr"]))
  }

  /** For every directive the merged options hold all three stream flags, so
      `_invoke_shell_command` never misses a key; each flag is the user's
      where the user set it, and otherwise the built-in one: the null device
      for brew, cask and tap, descriptor 1 for brewfile and install-brew. */
  lemma {:induction false} MergedStreams(directive: string, userDefaults: map<string, Defaults>)
    requires CanHandle(directive)
    ensures HasStreams(MergedDefaults(directive, userDefaults))
    ensures var s := StreamsOf(MergedDefaults(directive, userDefaults));
            var user := Get(userDefaults, directive);
            var passTrue := directive == "brewfile" || directive == "install-brew";
            && s.stdin == HandleOf(if "stdin" in user then user["stdin"] else passTrue)
            && s.stdout == HandleOf(if "stdout" in user then user["stdout"] else passTrue)
            && s.stderr == HandleOf(if "stderr" in user then user["stderr"] else passTrue)
  {
    var local := Get(BuiltinDefaults, directive);
    var passTrue := directive == "brewfile" || directive == "install-brew";
    assert local == Uniform(passTrue);
  }

  /** Without user overrides a directive runs with its built-in defaults. */
  lemma {:induction false} NoOverride(directive: string, userDefaults: map<string, Defaults>)
    requires directive !in userDefaults
    ensures MergedDefaults(directive, userDefaults) == Get(BuiltinDefaults, directive)
  {
    assert Get(userDefaults, directive) == map[];
    assert Merge(Get(BuiltinDefaults, directive), map[]) == Get(BuiltinDefaults, directive);
  }
}
