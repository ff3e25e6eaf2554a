/** The plugin object. The shell it drives is an oracle: the i-th command it
    issues (counting from 0 over the object's life) exits with `exitCode(i)`,
    and `trace` records every command issued so far with what the child's
    standard streams are bound to. Each method is proved against the value-level runs of
    module Runs: it appends exactly their commands to `trace` and returns
    their result. */
module Plugin {
  import opened PackageName
  import opened Templates
  import Options
  import opened Runs

  class Brew {
    /** Exit status of each command, in the order they are issued. */
    const exitCode: nat -> int
    /** The host's per-directive default overrides (`self._context.defaults()`). */
    const userDefaults: map<string, Options.Defaults>
    /** Every command issued so far. */
    var trace: seq<Invocation>

    constructor (exitCode: nat -> int, userDefaults: map<string, Options.Defaults>)
      ensures this.exitCode == exitCode && this.userDefaults == userDefaults
      ensures trace == []
    {
      this.exitCode := exitCode;
      this.userDefaults := userDefaults;
      trace := [];
    }

    /** `subprocess.call`: one child process, which runs to completion. */
    method Call(command: string, streams: Options.Streams) returns (code: int)
      modifies this
      ensures trace == old(trace) + [Invocation(command, streams)]
      ensures code == exitCode(|old(trace)|)
    {
      code := exitCode(|trace|);
      trace := trace + [Invocation(command, streams)];
    }

    /** `_invoke_shell_command`: the streams come from the directive's options. */
    method InvokeShellCommand(command: string, defaults: Options.Defaults) returns (code: int)
      requires Options.HasStreams(defaults)
      modifies this
      ensures trace == old(trace) + [Invocation(command, Options.StreamsOf(defaults))]
      ensures code == exitCode(|old(trace)|)
    {
      code := Call(command, Options.StreamsOf(defaults));
    }

    /** `handle`: merge the defaults, then dispatch to the directive's handler. */
    method Handle(directive: string, data: Data) returns (ok: bool)
      requires Options.CanHandle(directive)
      requires Options.Handler(directive) != Options.InstallBrew ==> data.Items?
      modifies this
      ensures Options.HasStreams(Options.MergedDefaults(directive, userDefaults))
      ensures var run := DirectiveRun(Options.Handler(directive), data,
                                      Options.StreamsOf(Options.MergedDefaults(directive, userDefaults)),
                                      exitCode, |old(trace)|);
              trace == old(trace) + run.issued && ok == run.ok
    {
      var defaults := Options.MergedDefaults(directive, userDefaults);
      Options.MergedStreams(directive, userDefaults);
      match Options.Handler(directive)
      case InstallBrew => ok := InstallBrew(Truthy(data), defaults);
      case Brew => ok := BrewPackages(data.items, defaults);
      case Cask => ok := Cask(data.items, defaults);
      case Tap => ok := Tap(data.items, defaults);
      case Brewfile => ok := Brewfile(data.items, defaults);
    }

    /** `_tap`: `brew tap` for every tap, carrying on past failures. */
    method Tap(taps: seq<string>, defaults: Options.Defaults) returns (ok: bool)
      requires Options.HasStreams(defaults)
      modifies this
      ensures var run := Batch(Runner(TapCommand, "tap", Options.StreamsOf(defaults), exitCode), taps, |old(trace)|);
              trace == old(trace) + run.issued && ok == run.ok
    {
      ok := RunEach(TapCommand, "tap", taps, defaults);
    }

    /** `_brew`: check-then-install every formula. */
    method BrewPackages(packages: seq<string>, defaults: Options.Defaults) returns (ok: bool)
      requires Options.HasStreams(defaults)
      modifies this
      ensures var run := Batch(Installer(BrewInstall, BrewCheck, Options.StreamsOf(defaults), exitCode),
                               packages, |old(trace)|);
              trace == old(trace) + run.issued && ok == run.ok
    {
      ok := InstallEach(BrewInstall, BrewCheck, packages, defaults);
    }

    /** `_cask`: check-then-install every cask. */
    method Cask(packages: seq<string>, defaults: Options.Defaults) returns (ok: bool)
      requires Options.HasStreams(defaults)
      modifies this
      ensures var run := Batch(Installer(CaskInstall, CaskCheck, Options.StreamsOf(defaults), exitCode),
                               packages, |old(trace)|);
              trace == old(trace) + run.issued && ok == run.ok
    {
      ok := InstallEach(CaskInstall, CaskCheck, packages, defaults);
    }

    /** `_brewfile`: `brew bundle` for every bundle file. */
    method Brewfile(files: seq<string>, defaults: Options.Defaults) returns (ok: bool)
      requires Options.HasStreams(defaults)
      modifies this
      ensures var run := Batch(Runner(BundleCommand, "file", Options.StreamsOf(defaults), exitCode), files, |old(trace)|);
              trace == old(trace) + run.issued && ok == run.ok
    {
      ok := RunEach(BundleCommand, "file", files, defaults);
    }

    /** `_install_brew`: refuses a false value, otherwise installs brew itself
        unless `command -v` finds it. */
    method InstallBrew(val: bool, defaults: Options.Defaults) returns (ok: bool)
      requires Options.HasStreams(defaults)
      modifies this
      ensures var run := BootstrapStep(Flag(val), Options.StreamsOf(defaults), exitCode, |old(trace)|);
              trace == old(trace) + run.issued && ok == run.ok
    {
      if !val {
        return false;
      }
      ok := Install(BootstrapInstall, BootstrapCheck, "brew", defaults);
    }

    /** `_install`: skip an empty or unmatched target; otherwise run the check
        command with every stream on the null device and, unless it exits 0, the install command. */
    method Install(installFormat: Template, checkFormat: Template, pkg: string,
                   defaults: Options.Defaults) returns (ok: bool)
      requires Fills(installFormat, "pkg") && Fills(checkFormat, "pkg_name")
      requires Options.HasStreams(defaults)
      modifies this
      ensures var run := Installer(installFormat, checkFormat, Options.StreamsOf(defaults), exitCode)(pkg, |old(trace)|);
              trace == old(trace) + run.issued && ok == run.ok
    {
      InstallerApplies(installFormat, checkFormat, Options.StreamsOf(defaults), exitCode, pkg, |trace|);
      if pkg == [] {
        return false;
      }
      var parsed := ParseName(pkg);
      if parsed.None? {
        return false;
      }
      var isInstalled := Call(Format(checkFormat, "pkg_name", parsed.value), Options.Quiet);
      if isInstalled == 0 {
        return true;
      }
      var result := InvokeShellCommand(Format(installFormat, "pkg", pkg), defaults);
      ok := result == 0;
    }

    /** The loop of `_brew` and `_cask`: every package in order, no early exit. */
    method InstallEach(installFormat: Template, checkFormat: Template, packages: seq<string>,
                       defaults: Options.Defaults) returns (result: bool)
      requires Fills(installFormat, "pkg") && Fills(checkFormat, "pkg_name")
      requires Options.HasStreams(defaults)
      modifies this
      ensures var run := Batch(Installer(installFormat, checkFormat, Options.StreamsOf(defaults), exitCode),
                               packages, |old(trace)|);
              trace == old(trace) + run.issued && result == run.ok
    {
      ghost var step := Installer(installFormat, checkFormat, Options.StreamsOf(defaults), exitCode);
      ghost var start := trace;
      result := true;
      for i := 0 to |packages|
        invariant trace == start + Flatten(Steps(step, packages[..i], |start|))
        invariant result == AllOk(Steps(step, packages[..i], |start|))
      {
        StepsExtend(step, packages, i, start, trace);
        var run := Install(installFormat, checkFormat, packages[i], defaults);
        if !run {
          result := false;
        }
      }
      assert packages[..|packages|] == packages;
    }

    /** The loop of `_tap` and `_brewfile`: one command per element, in order,
        no early exit. */
    method RunEach(command: Template, key: string, items: seq<string>,
                   defaults: Options.Defaults) returns (result: bool)
      requires Fills(command, key)
      requires Options.HasStreams(defaults)
      modifies this
      ensures var run := Batch(Runner(command, key, Options.StreamsOf(defaults), exitCode), items, |old(trace)|);
              trace == old(trace) + run.issued && result == run.ok
    {
      ghost var step := Runner(command, key, Options.StreamsOf(defaults), exitCode);
      ghost var start := trace;
      result := true;
      for i := 0 to |items|
        invariant trace == start + Flatten(Steps(step, items[..i], |start|))
        invariant result == AllOk(Steps(step, items[..i], |start|))
      {
        StepsExtend(step, items, i, start, trace);
        var code := InvokeShellCommand(Format(command, key, items[i]), defaults);
        if code != 0 {
          result := false;
        }
      }
      assert items[..|items|] == items;
    }
  }
}
