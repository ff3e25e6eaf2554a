/** What the directives do, as values: which shell commands they issue, in
    which order, and which boolean they report. The shell is an oracle
    `codes`: the i-th command issued since the plugin was created (counting
    from 0) exits with `codes(i)`; `at` is the number of commands issued
    before the step starts. */
module Runs {
  import opened PackageName
  import opened Templates
  import opened Options

  /** One child process: the shell command line and what its three standard
      streams are bound to. */
  datatype Invocation = Invocation(command: string, streams: Streams)

  /** The commands issued by a run and the boolean it reports. */
  datatype Step = Step(issued: seq<Invocation>, ok: bool)

  /** The value a directive receives from the configuration file: a boolean
      (for install-brew) or a list of strings. */
  datatype Data = Flag(flag: bool) | Items(items: seq<string>)

  /** Python truthiness of the value, which `_install_brew` tests. */
  function Truthy(data: Data): bool {
    match data
    case Flag(b) => b
    case Items(xs) => xs != []
  }

  const BrewInstall: Template := [Text("/opt/homebrew/bin/brew install "), Field("pkg")]
  const BrewCheck: Template :=
    [Text("test -d /opt/homebrew/Cellar/"), Field("pkg_name"),
     Text(" || /opt/homebrew/bin/brew ls --versions "), Field("pkg_name")]
  const CaskInstall: Template := [Text("/opt/homebrew/bin/brew install --cask "), Field("pkg")]
  const CaskCheck: Template :=
    [Text("test -d /opt/homebrew/Caskroom/"), Field("pkg_name"),
     Text(" || /opt/homebrew/bin/brew ls --cask --versions "), Field("pkg_name")]
  const TapCommand: Template := [Text("brew tap "), Field("tap")]
  const BundleCommand: Template := [Text("/opt/homebrew/bin/brew bundle --verbose --file="), Field("file")]
  const BootstrapLink := "https://raw.githubusercontent.com/Homebrew/install/HEAD/install.sh"
  const BootstrapInstall: Template := [Text("/bin/bash -c \"$(curl -fsSL " + BootstrapLink + ")\"")]
  const BootstrapCheck: Template := [Text("command -v /opt/homebrew/bin/brew")]

  /** `_install` for one target. The check command, with the extracted name
      and all streams discarded, comes first; a zero exit ends the step with
      success; otherwise the install command, with the full target and the
      directive's streams, decides the result. A target with no name (empty,
      or not matched by the pattern) issues nothing and fails. */
  function InstallStep(install: Template, check: Template, pkg: string,
                       streams: Streams, codes: nat -> int, at: nat): Step
    requires Fills(install, "pkg") && Fills(check, "pkg_name")
  {
    if pkg == [] then Step([], false)
    else match ParseName(pkg)
      case None => Step([], false)
      case Some(name) =>
        var checkCall := Invocation(Format(check, "pkg_name", name), Quiet);
        if codes(at) == 0 then Step([checkCall], true)
        else Step([checkCall, Invocation(Format(install, "pkg", pkg), streams)], codes(at + 1) == 0)
  }

  /** The commands `_brew` fills in for a target `pkg` with extracted name `name`. */
  lemma {:induction false} BrewCommands(pkg: string, name: string)
    ensures Format(BrewInstall, "pkg", pkg) == "/opt/homebrew/bin/brew install " + pkg
    ensures Format(BrewCheck, "pkg_name", name)
              == "test -d /opt/homebrew/Cellar/" + name + " || /opt/homebrew/bin/brew ls --versions " + name
  {
    assert BrewInstall == [BrewInstall[0]] + [BrewInstall[1]];
    FormatAppend([BrewInstall[0]], [BrewInstall[1]], "pkg", pkg);
    assert BrewCheck == [BrewCheck[0], BrewCheck[1]] + [BrewCheck[2], BrewCheck[3]];
    FormatAppend([BrewCheck[0], BrewCheck[1]], [BrewCheck[2], BrewCheck[3]], "pkg_name", name);
  }

  /** The commands `_cask` fills in for a target `pkg` with extracted name `name`. */
  lemma {:induction false} CaskCommands(pkg: string, name: string)
    ensures Format(CaskInstall, "pkg", pkg) == "/opt/homebrew/bin/brew install --cask " + pkg
    ensures Format(CaskCheck, "pkg_name", name)
              == "test -d /opt/homebrew/Caskroom/" + name + " || /opt/homebrew/bin/brew ls --cask --versions " + name
  {
    assert CaskInstall == [CaskInstall[0]] + [CaskInstall[1]];
    FormatAppend([CaskInstall[0]], [CaskInstall[1]], "pkg", pkg);
    assert CaskCheck == [CaskCheck[0], CaskCheck[1]] + [CaskCheck[2], CaskCheck[3]];
    FormatAppend([CaskCheck[0], CaskCheck[1]], [CaskCheck[2], CaskCheck[3]], "pkg_name", name);
  }

  /** The command `_tap` runs for a tap. */
  lemma {:induction false} TapCommandText(tap: string)
    ensures Format(TapCommand, "tap", tap) == "brew tap " + tap
  {
    assert TapCommand == [TapCommand[0]] + [TapCommand[1]];
    FormatAppend([TapCommand[0]], [TapCommand[1]], "tap", tap);
  }

  /** The command `_brewfile` runs for a bundle file. */
  lemma {:induction false} BundleCommandText(file: string)
    ensures Format(BundleCommand, "file", file) == "/opt/homebrew/bin/brew bundle --verbose --file=" + file
  {
    assert BundleCommand == [BundleCommand[0]] + [BundleCommand[1]];
    FormatAppend([BundleCommand[0]], [BundleCommand[1]], "file", file);
  }

  /** What `_install` promises: a target without a name issues nothing
      (so an empty target fails without a command); otherwise the check
      command, filled in with the extracted name and with every stream
      discarded, comes first; the install command, filled in with the full
      target and with the directive's streams, follows exactly when the check
      exited non-zero; and the result is true exactly when the last command
      issued exited 0. */
  lemma InstallStepBehaviour(install: Template, check: Template, pkg: string,
                             streams: Streams, codes: nat -> int, at: nat)
    requires Fills(install, "pkg") && Fills(check, "pkg_name")
    ensures var s := InstallStep(install, check, pkg, streams, codes, at);
            && (s.issued != [] <==> ParseName(pkg).Some?)
            && (s.issued != [] ==>
                  s.issued[0] == Invocation(Format(check, "pkg_name", ParseName(pkg).value), Quiet))
            && (s.issued != [] && codes(at) != 0 <==> |s.issued| == 2)
            && (|s.issued| == 2 ==> s.issued[1] == Invocation(Format(install, "pkg", pkg), streams))
            && |s.issued| <= 2
            && (s.ok <==> s.issued != [] && codes(at + |s.issued| - 1) == 0)
  {
  }

  /** One command for the element; success is a zero exit. */
  function RunStep(command: Template, key: string, item: string,
                   streams: Streams, codes: nat -> int, at: nat): Step
    requires Fills(command, key)
  {
    Step([Invocation(Format(command, key, item), streams)], codes(at) == 0)
  }

  /** A per-element step, given the element and the number of commands
      issued before it. */
  type Stepper = (string, nat) -> Step

  /** The step `_brew` and `_cask` take for each package. */
  function Installer(install: Template, check: Template, streams: Streams, codes: nat -> int): Stepper
    requires Fills(install, "pkg") && Fills(check, "pkg_name")
  {
    (pkg: string, at: nat) => InstallStep(install, check, pkg, streams, codes, at)
  }

  lemma InstallerApplies(install: Template, check: Template, streams: Streams, codes: nat -> int,
                          pkg: string, at: nat)
    requires Fills(install, "pkg") && Fills(check, "pkg_name")
    ensures Installer(install, check, streams, codes)(pkg, at)
              == InstallStep(install, check, pkg, streams, codes, at)
  {
  }

  /** The step `_tap` and `_brewfile` take for each element. */
  function Runner(command: Template, key: string, streams: Streams, codes: nat -> int): Stepper
    requires Fills(command, key)
  {
    (item: string, at: nat) => RunStep(command, key, item, streams, codes, at)
  }

  /** The step of every element, in list order, each starting where the
      previous one stopped. */
  function Steps(step: Stepper, items: seq<string>, at: nat): (r: seq<Step>)
    ensures |r| == |items|
    decreases |items|
  {
    if items == [] then []
    else
      var first := step(items[0], at);
      [first] + Steps(step, items[1..], at + |first.issued|)
  }

  /** All commands of the steps, in order. */
  function Flatten(steps: seq<Step>): seq<Invocation> {
    if steps == [] then [] else steps[0].issued + Flatten(steps[1..])
  }

  /** The batch result: the `result` flag stays true until some element fails. */
  predicate AllOk(steps: seq<Step>) {
    forall k | 0 <= k < |steps| :: steps[k].ok
  }

  /** A list directive: every element processed, then the conjunction. */
  function Batch(step: Stepper, items: seq<string>, at: nat): Step {
    var steps := Steps(step, items, at);
    Step(Flatten(steps), AllOk(steps))
  }

  /** The per-element step of each list directive. */
  function StepperOf(d: Directive, streams: Streams, codes: nat -> int): Stepper
    requires d != InstallBrew
  {
    match d
    case Brew => Installer(BrewInstall, BrewCheck, streams, codes)
    case Cask => Installer(CaskInstall, CaskCheck, streams, codes)
    case Tap => Runner(TapCommand, "tap", streams, codes)
    case Brewfile => Runner(BundleCommand, "file", streams, codes)
  }

  /** `_install_brew`: a false value is refused before any command runs. */
  function BootstrapStep(data: Data, streams: Streams, codes: nat -> int, at: nat): Step {
    if !Truthy(data) then Step([], false)
    else InstallStep(BootstrapInstall, BootstrapCheck, "brew", streams, codes, at)
  }

  /** What the handler of directive `d` does with its data. */
  function DirectiveRun(d: Directive, data: Data, streams: Streams, codes: nat -> int, at: nat): Step
    requires d != InstallBrew ==> data.Items?
  {
    if d == InstallBrew then BootstrapStep(data, streams, codes, at)
    else Batch(StepperOf(d, streams, codes), data.items, at)
  }

  lemma {:induction false} FlattenAppend(s: seq<Step>, t: seq<Step>)
    ensures Flatten(s + t) == Flatten(s) + Flatten(t)
    decreases |s|
  {
    if s == [] {
      assert s + t == t;
    } else {
      assert (s + t)[1..] == s[1..] + t;
      FlattenAppend(s[1..], t);
    }
  }

  lemma AllOkSnoc(steps: seq<Step>, last: Step)
    ensures AllOk(steps + [last]) <==> AllOk(steps) && last.ok
  {
    if AllOk(steps) && last.ok {
      forall k | 0 <= k < |steps| + 1 ensures (steps + [last])[k].ok {
        if k < |steps| { assert (steps + [last])[k] == steps[k]; }
      }
    }
    if AllOk(steps + [last]) {
      assert (steps + [last])[|steps|] == last;
      forall k | 0 <= k < |steps| ensures steps[k].ok {
        assert (steps + [last])[k] == steps[k];
      }
    }
  }

  /** Processing one more element appends its step, started where the
      earlier elements' commands end. */
  lemma {:induction false} StepsSnoc(step: Stepper, items: seq<string>, x: string, at: nat)
    ensures var before := Steps(step, items, at);
            Steps(step, items + [x], at) == before + [step(x, at + |Flatten(before)|)]
    decreases |items|
  {
    if items == [] {
      assert items + [x] == [x];
    } else {
      var first := step(items[0], at);
      assert (items + [x])[0] == items[0];
      assert (items + [x])[1..] == items[1..] + [x];
      StepsSnoc(step, items[1..], x, at + |first.issued|);
    }
  }

  /** One more loop iteration: when the commands issued so far, `log`, are
      `base` followed by those of the first `i` elements, they and the next
      element's step are `base` followed by those of the first `i + 1`; and
      the batch stays ok iff that step is ok. */
  lemma {:induction false} StepsExtend(step: Stepper, items: seq<string>, i: nat,
                                       base: seq<Invocation>, log: seq<Invocation>)
    requires i < |items|
    requires log == base + Flatten(Steps(step, items[..i], |base|))
    ensures var s := step(items[i], |log|);
            var next := Steps(step, items[..i + 1], |base|);
            && log + s.issued == base + Flatten(next)
            && (AllOk(next) <==> AllOk(Steps(step, items[..i], |base|)) && s.ok)
  {
    var done := Steps(step, items[..i], |base|);
    var s := step(items[i], |log|);
    assert items[..i + 1] == items[..i] + [items[i]];
    StepsSnoc(step, items[..i], items[i], |base|);
    FlattenAppend(done, [s]);
    assert Flatten([s]) == s.issued;
    AllOkSnoc(done, s);
  }

  /** No early exit: element k, whatever happened to the elements before it,
      gets exactly its own step, started right after their commands; and the
      batch's command list continues with that step's commands. */
  lemma {:induction false} StepsAt(step: Stepper, items: seq<string>, at: nat, k: nat)
    requires k < |items|
    ensures var r := Steps(step, items, at);
            && r[k] == step(items[k], at + |Flatten(r[..k])|)
            && Flatten(r[..k]) + r[k].issued <= Flatten(r)
    decreases k
  {
    var r := Steps(step, items, at);
    var first := step(items[0], at);
    var rest := Steps(step, items[1..], at + |first.issued|);
    assert r == [first] + rest;
    if k == 0 {
      assert r[..0] == [];
    } else {
      StepsAt(step, items[1..], at + |first.issued|, k - 1);
      assert Flatten(r[..k]) == first.issued + Flatten(rest[..k - 1]) by {
        assert r[..k] == [first] + rest[..k - 1];
        assert (r[..k])[1..] == rest[..k - 1];
      }
      assert r[k] == rest[k - 1] && items[k] == items[1..][k - 1];
    }
    FlattenPrefix(r, k);
  }

  /** The commands of the first k steps, then those of step k, begin the
      commands of all the steps. */
  lemma {:induction false} FlattenPrefix(r: seq<Step>, k: nat)
    requires k < |r|
    ensures Flatten(r[..k]) + r[k].issued <= Flatten(r)
  {
    assert r == r[..k] + ([r[k]] + r[k + 1..]);
    FlattenAppend(r[..k], [r[k]] + r[k + 1..]);
    FlattenAppend([r[k]], r[k + 1..]);
    assert Flatten([r[k]]) == r[k].issued;
  }

  /** The batch succeeds exactly when every element's step succeeded; on an
      empty list it succeeds and issues nothing. */
  lemma {:induction false} BatchOk(step: Stepper, items: seq<string>, at: nat)
    ensures var r := Steps(step, items, at);
            Batch(step, items, at).ok <==>
              forall k | 0 <= k < |items| :: step(items[k], at + |Flatten(r[..k])|).ok
    ensures items == [] ==> Batch(step, items, at) == Step([], true)
  {
    var r := Steps(step, items, at);
    forall k | 0 <= k < |items|
      ensures r[k] == step(items[k], at + |Flatten(r[..k])|)
    {
      StepsAt(step, items, at, k);
    }
    assert Batch(step, items, at).ok == AllOk(r);
    if items == [] {
      assert r == [];
    }
  }

  /** `_tap` and `_brewfile`: exactly one command per element, in list
      order, each filled in with its element; success iff all of them exit 0. */
  lemma {:induction false} RunEachCommands(command: Template, key: string, items: seq<string>,
                                           streams: Streams, codes: nat -> int, at: nat)
    requires Fills(command, key)
    ensures var b := Batch(Runner(command, key, streams, codes), items, at);
            && |b.issued| == |items|
            && (forall k | 0 <= k < |items| ::
                  b.issued[k] == Invocation(Format(command, key, items[k]), streams))
            && (b.ok <==> forall i | at <= i < at + |items| :: codes(i) == 0)
    decreases |items|
  {
    if items != [] {
      var step := Runner(command, key, streams, codes);
      RunEachCommands(command, key, items[1..], streams, codes, at + 1);
      var first := step(items[0], at);
      var rest := Steps(step, items[1..], at + 1);
      var r := Steps(step, items, at);
      assert r == [first] + rest;
      assert Flatten(r) == first.issued + Flatten(rest) by {
        assert r[1..] == rest;
      }
      forall k | 0 <= k < |items|
        ensures Flatten(r)[k] == Invocation(Format(command, key, items[k]), streams)
      {
        if k > 0 { assert Flatten(r)[k] == Flatten(rest)[k - 1]; }
      }
      assert AllOk(r) <==> first.ok && AllOk(rest) by {
        if first.ok && AllOk(rest) {
          forall k | 0 <= k < |r| ensures r[k].ok {
            if k > 0 { assert r[k] == rest[k - 1]; }
          }
        }
      }
    }
  }

  /** Every command of every element's step is among the batch's commands. */
  lemma {:induction false} StepCommandIssued(step: Stepper, items: seq<string>, at: nat, k: nat, j: nat)
    requires k < |items| && j < |Steps(step, items, at)[k].issued|
    ensures Steps(step, items, at)[k].issued[j] in Batch(step, items, at).issued
  {
    var r := Steps(step, items, at);
    StepsAt(step, items, at, k);
    var before := Flatten(r[..k]);
    assert Flatten(r)[|before| + j] == (before + r[k].issued)[|before| + j];
  }

  /** `_brew` and `_cask` check every package that has a name, even after
      earlier packages failed: the batch's commands contain each one's check. */
  lemma {:induction false} EveryPackageChecked(install: Template, check: Template, pkgs: seq<string>,
                                               streams: Streams, codes: nat -> int, at: nat, k: nat)
    requires Fills(install, "pkg") && Fills(check, "pkg_name")
    requires k < |pkgs| && ParseName(pkgs[k]).Some?
    ensures Invocation(Format(check, "pkg_name", ParseName(pkgs[k]).value), Quiet)
              in Batch(Installer(install, check, streams, codes), pkgs, at).issued
  {
    var step := Installer(install, check, streams, codes);
    var r := Steps(step, pkgs, at);
    StepsAt(step, pkgs, at, k);
    var s := InstallStep(install, check, pkgs[k], streams, codes, at + |Flatten(r[..k])|);
    InstallerApplies(install, check, streams, codes, pkgs[k], at + |Flatten(r[..k])|);
    InstallStepBehaviour(install, check, pkgs[k], streams, codes, at + |Flatten(r[..k])|);
    assert s.issued != [];
    assert 0 < |r[k].issued|;
    StepCommandIssued(step, pkgs, at, k, 0);
    assert r[k].issued[0] in Batch(step, pkgs, at).issued;
    assert s.issued[0] == Invocation(Format(check, "pkg_name", ParseName(pkgs[k]).value), Quiet);
  }

  /** `_install_brew`: false issues nothing and fails; true checks for the
      brew binary with `command -v` and, when it is absent, runs the
      bootstrap script, succeeding iff the command run last exited 0. */
  lemma {:induction false} BootstrapBehaviour(data: Data, streams: Streams, codes: nat -> int, at: nat)
    ensures !Truthy(data) ==> BootstrapStep(data, streams, codes, at) == Step([], false)
    ensures Truthy(data) ==>
              var s := BootstrapStep(data, streams, codes, at);
              var check := Invocation("command -v /opt/homebrew/bin/brew", Quiet);
              var install := Invocation("/bin/bash -c \"$(curl -fsSL " + BootstrapLink + ")\"", streams);
              && (codes(at) == 0 ==> s == Step([check], true))
              && (codes(at) != 0 ==> s == Step([check, install], codes(at + 1) == 0))
  {
    assert ParseName("brew") == Some("brew") by {
      FirstMatchByScan("brew", 0, 4);
    }
    assert Format(BootstrapCheck, "pkg_name", "brew") == "command -v /opt/homebrew/bin/brew";
    assert Format(BootstrapInstall, "pkg", "brew") == "/bin/bash -c \"$(curl -fsSL " + BootstrapLink + ")\"";
  }
}
