/** Command templates filled in with Python's `str.format` (and the f-strings
    that build the tap and bundle commands). A template is kept already split
    into literal text and replacement fields, so filling it in is
    substitution of one value for every field. */
module Templates {

  datatype Piece = Text(text: string) | Field(key: string)

  type Template = seq<Piece>

  /** Every replacement field of `t` is named `key`: `format(key=...)` fills them all. */
  predicate Fills(t: Template, key: string) {
    forall i | 0 <= i < |t| :: t[i].Field? ==> t[i].key == key
  }

  /** Number of replacement fields in `t`. */
  function FieldCount(t: Template): nat {
    if t == [] then 0 else (if t[0].Field? then 1 else 0) + FieldCount(t[1..])
  }

  /** Total length of the literal text in `t`. */
  function TextLength(t: Template): nat {
    if t == [] then 0 else (if t[0].Text? then |t[0].text| else 0) + TextLength(t[1..])
  }

  /** `t` filled in with `value` for its field `key`. */
  function Format(t: Template, key: string, value: string): string
    requires Fills(t, key)
  {
    if t == [] then []
    else
      (match t[0] case Text(s) => s case Field(_) => value) + Format(t[1..], key, value)
  }

  /** Each field contributes the value once, each text piece itself. */
  lemma {:induction false} FormatLength(t: Template, key: string, value: string)
    requires Fills(t, key)
    ensures |Format(t, key, value)| == TextLength(t) + FieldCount(t) * |value|
    decreases |t|
  {
    if t != [] {
      FormatLength(t[1..], key, value);
    }
  }

  lemma {:induction false} FillsAppend(a: Template, b: Template, key: string)
    requires Fills(a, key) && Fills(b, key)
    ensures Fills(a + b, key)
  {
    forall i | 0 <= i < |a + b| && (a + b)[i].Field? ensures (a + b)[i].key == key {
      if i >= |a| { assert (a + b)[i] == b[i - |a|]; }
    }
  }

  /** Filling in a template piece by piece: formatting distributes over
      concatenation of templates. */
  lemma {:induction false} FormatAppend(a: Template, b: Template, key: string, value: string)
    requires Fills(a, key) && Fills(b, key)
    ensures Fills(a + b, key)
    ensures Format(a + b, key, value) == Format(a, key, value) + Format(b, key, value)
    decreases |a|
  {
    FillsAppend(a, b, key);
    if a == [] {
      assert a + b == b;
    } else {
      var head := match a[0] case Text(s) => s case Field(_) => value;
      assert (a + b)[0] == a[0];
      assert (a + b)[1..] == a[1..] + b;
      FormatAppend(a[1..], b, key, value);
      calc {
        Format(a + b, key, value);
        head + Format(a[1..] + b, key, value);
        head + (Format(a[1..], key, value) + Format(b, key, value));
        (head + Format(a[1..], key, value)) + Format(b, key, value);
        Format(a, key, value) + Format(b, key, value);
      }
    }
  }

  /** A template without fields formats to the same command whatever the value. */
  lemma {:induction false} FormatWithoutFields(t: Template, key: string, v: string, w: string)
    requires Fills(t, key) && FieldCount(t) == 0
    ensures Format(t, key, v) == Format(t, key, w)
    decreases |t|
  {
    if t != [] {
      FormatWithoutFields(t[1..], key, v, w);
    }
  }

  /** A template with a field determines the value it was filled in with. */
  lemma {:induction false} FormatInjective(t: Template, key: string, v: string, w: string)
    requires Fills(t, key) && FieldCount(t) > 0
    requires Format(t, key, v) == Format(t, key, w)
    ensures v == w
  {
    var n := FieldCount(t);
    FormatLength(t, key, v);
    FormatLength(t, key, w);
    if |v| < |w| {
      ScaleStrict(n, |v|, |w|);
    } else if |w| < |v| {
      ScaleStrict(n, |w|, |v|);
    }
    FormatSameLength(t, key, v, w);
  }

  lemma {:induction false} ScaleStrict(n: nat, a: nat, b: nat)
    requires n > 0 && a < b
    ensures n * a < n * b
    decreases n
  {
    if n > 1 {
      ScaleStrict(n - 1, a, b);
    }
  }

  lemma {:induction false} FormatSameLength(t: Template, key: string, v: string, w: string)
    requires Fills(t, key) && FieldCount(t) > 0 && |v| == |w|
    requires Format(t, key, v) == Format(t, key, w)
    ensures v == w
    decreases |t|
  {
    var rv, rw := Format(t[1..], key, v), Format(t[1..], key, w);
    match t[0]
    case Text(s) =>
      assert s + rv == s + rw;
      assert rv == (s + rv)[|s|..];
      assert rw == (s + rw)[|s|..];
      FormatSameLength(t[1..], key, v, w);
    case Field(_) =>
      assert v == (v + rv)[..|v|];
      assert w == (w + rw)[..|w|];
  }
}
