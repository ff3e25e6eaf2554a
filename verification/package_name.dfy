/** Package-name extraction done by `_install` before its "already installed?"
    check: Python's `re.search` with the pattern ^(?:.+/)?(.+?)(?: .+)?$,
    whose group 1 is the name. The optional tap group (?:.+/) is greedy, the
    name group (.+?) is lazy, and the optional flag group ( .+) is greedy.

    In Python's `re`, `.` matches every character except '\n', and `$` (no
    MULTILINE flag) matches at the end of the input or just before one final
    '\n'. So a match exists exactly when the input, less one final line break,
    is a non-empty single line; on that line the backtracking search returns
    the match with the longest tap prefix and, for that prefix, the shortest
    name. */
module PackageName {

  datatype Option<T> = None | Some(value: T)

  /** No line break: every character is matched by `.`. */
  predicate SingleLine(t: string) {
    forall i | 0 <= i < |t| :: t[i] != '\n'
  }

  /** The part of `s` the pattern must span from `^` to `$`: `s` without one final '\n'. */
  function Line(s: string): (t: string)
    ensures t == s || s == t + "\n"
    ensures |s| > 0 && s[|s| - 1] == '\n' ==> s == t + "\n"
    ensures t == s[..|t|]
    ensures SingleLine(s) ==> t == s
  {
    if |s| > 0 && s[|s| - 1] == '\n' then s[..|s| - 1] else s
  }

  /** `t[j]` is a '/' on which the group (?:.+/) can end: one character or more lies before it. */
  predicate SlashAt(t: string, j: int) {
    1 <= j < |t| && t[j] == '/'
  }

  /** A '/' that can end the tap group while leaving at least one character for the name. */
  predicate TapSlash(t: string, j: int) {
    SlashAt(t, j) && j + 1 < |t|
  }

  /** The name group may stop at index `e`: the end of the line, or a space that
      ( .+)$ consumes together with at least one more character. */
  predicate NameBoundary(t: string, e: int) {
    e == |t| || (0 <= e && e + 1 < |t| && t[e] == ' ')
  }

  /** The pattern matches the single line `t` with the tap group spanning
      t[..p] and the name group spanning t[p..e]. */
  predicate IsMatch(t: string, p: int, e: int) {
    (p == 0 || SlashAt(t, p - 1)) && 0 <= p < e <= |t| && NameBoundary(t, e)
  }

  /** Backtracking order of the pattern: a longer tap prefix is tried first
      (the greedy group), then a shorter name (the lazy group). */
  predicate Precedes(p: int, e: int, p': int, e': int) {
    p' < p || (p' == p && e <= e')
  }

  /** Length of the tap prefix when only slashes at indices below `k` are
      considered: one past the last tap slash there, or 0 when there is none. */
  function PrefixEnd(t: string, k: nat): (p: nat)
    requires k <= |t|
    ensures p <= k
    ensures p == 0 || TapSlash(t, p - 1)
    ensures forall j | p <= j < k :: !TapSlash(t, j)
    decreases k
  {
    if k == 0 then 0
    else if TapSlash(t, k - 1) then k
    else PrefixEnd(t, k - 1)
  }

  /** First name boundary at or after `e`, given that none lies strictly between `p` and `e`. */
  function NameEnd(t: string, p: nat, e: nat): (r: nat)
    requires p < e <= |t|
    requires forall i | p < i < e :: !NameBoundary(t, i)
    ensures e <= r <= |t| && NameBoundary(t, r)
    ensures forall i | p < i < r :: !NameBoundary(t, i)
    decreases |t| - e
  {
    if NameBoundary(t, e) then e else NameEnd(t, p, e + 1)
  }

  /** Where group 1 lies in a non-empty line: the start and end of the name. */
  function NameSpan(t: string): (span: (nat, nat))
    requires |t| > 0
    ensures IsMatch(t, span.0, span.1)
  {
    var p := PrefixEnd(t, |t|);
    (p, NameEnd(t, p, p + 1))
  }

  /** `u` occurs in `t` as a contiguous run of characters. */
  ghost predicate Infix(u: string, t: string) {
    exists p :: OccursAt(u, t, p)
  }

  predicate OccursAt(u: string, t: string, p: int) {
    0 <= p <= |t| - |u| && t[p..p + |u|] == u
  }

  /** Group 1 of the first match on a non-empty line. */
  function ExtractName(t: string): (name: string)
    requires |t| > 0
    ensures 0 < |name| <= |t|
    ensures Infix(name, t)
  {
    var span := NameSpan(t);
    var name := t[span.0..span.1];
    assert OccursAt(name, t, span.0);
    name
  }

  /** The name `_install` uses for its check, or None where `re.search` finds no match. */
  function ParseName(s: string): (r: Option<string>)
    ensures r.Some? <==> |Line(s)| > 0 && SingleLine(Line(s))
    ensures s == [] ==> r == None
    ensures r.Some? ==> 0 < |r.value| <= |s| && Infix(r.value, s)
  {
    var t := Line(s);
    if |t| > 0 && SingleLine(t) then
      var name := ExtractName(t);
      assert OccursAt(name, s, NameSpan(t).0);
      Some(name)
    else None
  }

  /** NameSpan is the match the backtracking search reports first: every other
      match of the pattern comes later in its order. */
  lemma NameSpanIsFirstMatch(t: string, p: int, e: int)
    requires |t| > 0 && IsMatch(t, p, e)
    ensures Precedes(NameSpan(t).0, NameSpan(t).1, p, e)
  {
    var span := NameSpan(t);
    if p > span.0 {
      assert TapSlash(t, p - 1);
    }
  }

  /** What `pkg_parse[1]` is: group 1 of the match that precedes every other
      match of the pattern on the target's line. */
  lemma ParseNameIsFirstMatch(s: string)
    requires ParseName(s).Some?
    ensures exists p, e :: && IsMatch(Line(s), p, e)
                           && ParseName(s).value == Line(s)[p..e]
                           && forall p', e' | IsMatch(Line(s), p', e') :: Precedes(p, e, p', e')
  {
    var t := Line(s);
    var span := NameSpan(t);
    forall p', e' | IsMatch(t, p', e') ensures Precedes(span.0, span.1, p', e') {
      NameSpanIsFirstMatch(t, p', e');
    }
    assert IsMatch(t, span.0, span.1) && ParseName(s).value == t[span.0..span.1];
  }

  /** A match that precedes every other match is the one NameSpan finds. */
  lemma FirstMatchIsNameSpan(t: string, p: int, e: int)
    requires |t| > 0 && IsMatch(t, p, e)
    requires forall p', e' | IsMatch(t, p', e') :: Precedes(p, e, p', e')
    ensures NameSpan(t) == (p, e)
  {
    var span := NameSpan(t);
    NameSpanIsFirstMatch(t, p, e);
    assert Precedes(p, e, span.0, span.1);
  }

  /** A match is the first one when no tap slash lies at or after its start
      and no name boundary lies strictly inside its name. */
  lemma {:induction false} FirstMatchByScan(t: string, p: int, e: int)
    requires |t| > 0 && IsMatch(t, p, e)
    requires forall j | p <= j < |t| :: !TapSlash(t, j)
    requires forall i | p < i < e :: !NameBoundary(t, i)
    ensures NameSpan(t) == (p, e)
  {
    forall p', e' | IsMatch(t, p', e') ensures Precedes(p, e, p', e') {
      if p' > p {
        assert TapSlash(t, p' - 1);
      } else if p' == p && e' < e {
        assert NameBoundary(t, e');
      }
    }
    FirstMatchIsNameSpan(t, p, e);
  }

  lemma {:induction false} SingleLineAppend(a: string, b: string)
    requires SingleLine(a) && SingleLine(b)
    ensures SingleLine(a + b)
  {
    forall i | 0 <= i < |a + b| ensures (a + b)[i] != '\n' {
      if i >= |a| { assert (a + b)[i] == b[i - |a|]; }
    }
  }

  /** A target spelled tap/name flags: the tap and the flags are optional
      (empty here means absent). */
  function Target(tap: string, name: string, flags: string): string {
    (if tap == [] then [] else tap + "/") + name + (if flags == [] then [] else " " + flags)
  }

  /** Tap names (before the slash) and flags (after the space) are stripped,
      leaving exactly the name in between, provided the name holds no '/' and
      no space and the flags hold no '/'. */
  lemma {:induction false} TapAndFlagsStripped(tap: string, name: string, flags: string)
    requires SingleLine(tap) && SingleLine(name) && SingleLine(flags)
    requires |name| > 0
    requires forall i | 0 <= i < |name| :: name[i] != '/' && name[i] != ' '
    requires forall i | 0 <= i < |flags| :: flags[i] != '/'
    ensures ParseName(Target(tap, name, flags)) == Some(name)
  {
    var head: string := if tap == [] then [] else tap + "/";
    var tail: string := if flags == [] then [] else " " + flags;
    SingleLineAppend(tap, "/");
    SingleLineAppend(" ", flags);
    SingleLineAppend(head, name);
    SingleLineAppend(head + name, tail);
    var t := head + name + tail;
    assert t == Target(tap, name, flags);
    var p, e := |head|, |head| + |name|;
    assert t[p..e] == name;
    assert forall j | p <= j < |t| :: t[j] != '/' by {
      forall j | p <= j < |t| ensures t[j] != '/' {
        if j < e {
          assert t[j] == name[j - p];
        } else if j > e {
          assert t[j] == flags[j - e - 1];
        }
      }
    }
    assert forall i | p <= i < e :: t[i] != ' ' by {
      forall i | p <= i < e ensures t[i] != ' ' {
        assert t[i] == name[i - p];
      }
    }
    assert IsMatch(t, p, e) by {
      if tap != [] { assert t[p - 1] == '/'; }
      if flags != [] { assert t[e] == ' '; }
    }
    FirstMatchByScan(t, p, e);
    assert Line(t) == t;
  }

  /** The three spellings named in `_install`'s comment. */
  lemma ExampleBare()
    ensures ParseName("pkg") == Some("pkg")
  {
    FirstMatchByScan("pkg", 0, 3);
  }

  lemma ExampleTapped()
    ensures ParseName("tap/pkg") == Some("pkg")
  {
    FirstMatchByScan("tap/pkg", 4, 7);
  }

  lemma ExampleTappedWithFlags()
    ensures ParseName("tap/pkg --flag") == Some("pkg")
  {
    var t := "tap/pkg --flag";
    FirstMatchByScan(t, 4, 7);
    assert Line(t) == t && SingleLine(t);
    assert t[4..7] == "pkg";
  }

  /** A '/' with nothing before it, or nothing after it, does not end a tap. */
  lemma EdgeSlashAtEnds()
    ensures ParseName("/pkg") == Some("/pkg")
    ensures ParseName("tap/") == Some("tap/")
  {
    FirstMatchByScan("/pkg", 0, 4);
    FirstMatchByScan("tap/", 0, 4);
  }

  /** A trailing space has nothing after it, so it stays in the name. */
  lemma EdgeTrailingSpace()
    ensures ParseName("pkg ") == Some("pkg ")
  {
    FirstMatchByScan("pkg ", 0, 4);
  }

  /** The tap group is greedy: a '/' inside the flags is taken for the tap's slash. */
  lemma EdgeSlashInFlags()
    ensures ParseName("tap/pkg --opt=a/b") == Some("b")
  {
    FirstMatchByScan("tap/pkg --opt=a/b", 16, 17);
  }

  /** One final line break is ignored; any other line break defeats the match. */
  lemma EdgeLineBreaks()
    ensures ParseName("pkg\n") == Some("pkg")
    ensures ParseName("\n") == None
    ensures ParseName("a\nb") == None
  {
    assert Line("pkg\n") == "pkg" by {
      assert "pkg\n"[..3] == "pkg";
    }
    ExampleBare();
    assert Line("\n") == [] by {
      assert "\n"[..0] == [];
    }
    assert !SingleLine(Line("a\nb")) by {
      assert Line("a\nb") == "a\nb";
      assert "a\nb"[1] == '\n';
    }
  }
}
