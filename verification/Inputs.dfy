/** JSON inputs: validation, layered merging, and what a merge holds at every path. */
module Inputs {
  import opened Base

  /** A number is its rendered text; objects are unordered. */
  datatype Value =
    | Null
    | Bool(flag: bool)
    | Number(literal: string)
    | Str(text: string)
    | Array(items: seq<Value>)
    | Object(fields: map<string, Value>)

  datatype TemplateFault = NotClosed | BadPath(path: string)

  datatype InputError =
    | NotObject
    | TooLarge
    | InvalidKey(key: string)
    | NulCharacter
    | InvalidTemplate(fault: TemplateFault)
    | MissingVariable(path: string)
    | NonScalarVariable(path: string)

  const MAX_INPUT_BYTES: nat := 65_536

  // ---- Validation ---------------------------------------------------------------

  predicate FirstChar(c: char) {
    'a' <= c <= 'z' || c == '_'
  }

  predicate SegmentChar(c: char) {
    FirstChar(c) || '0' <= c <= '9' || c == '-'
  }

  predicate ValidSegment(s: string) {
    |s| > 0 && FirstChar(s[0]) && forall i :: 0 < i < |s| ==> SegmentChar(s[i])
  }

  /** Path-safe keys and NUL-free strings, at every depth. */
  ghost predicate ValidEntries(v: Value) {
    match v
    case Object(fields) => forall k :: k in fields ==> ValidSegment(k) && ValidEntries(fields[k])
    case Array(items) => forall i :: 0 <= i < |items| ==> ValidEntries(items[i])
    case Str(text) => '\0' !in text
    case _ => true
  }

  /** Whether `e` names a real fault of `v`. */
  ghost predicate Faulty(v: Value, e: InputError) {
    match v
    case Object(fields) =>
      exists k :: k in fields && ((!ValidSegment(k) && e == InvalidKey(k)) || Faulty(fields[k], e))
    case Array(items) => exists i :: 0 <= i < |items| && Faulty(items[i], e)
    case Str(text) => '\0' in text && e == NulCharacter
    case _ => false
  }

  method ValidateEntries(v: Value) returns (r: Option<InputError>)
    ensures r.None? <==> ValidEntries(v)
    ensures r.Some? ==> Faulty(v, r.value)
    decreases v
  {
    match v {
      case Object(fields) =>
        var rest := fields.Keys;
        while rest != {}
          invariant rest <= fields.Keys
          invariant forall k :: k in fields && k !in rest ==> ValidSegment(k) && ValidEntries(fields[k])
          decreases rest
        {
          var k :| k in rest;
          if !ValidSegment(k) {
            return Some(InvalidKey(k));
          }
          r := ValidateEntries(fields[k]);
          if r.Some? {
            return;
          }
          rest := rest - {k};
        }
      case Array(items) =>
        for i := 0 to |items|
          invariant forall j :: 0 <= j < i ==> ValidEntries(items[j])
        {
          r := ValidateEntries(items[i]);
          if r.Some? {
            return;
          }
        }
      case Str(text) =>
        if '\0' in text {
          return Some(NulCharacter);
        }
      case _ =>
    }
    return None;
  }

  /** `size` is the length of the encoded value. */
  method ValidateInputs(v: Value, size: Value -> nat) returns (r: Option<InputError>)
    ensures r.None? <==> ValidInputs(v, size)
    ensures r.None? <==> v.Object? && ValidEntries(v) && size(v) <= 65_536
    ensures r.Some? ==> InputFault(v, size, r.value)
  {
    if !v.Object? {
      return Some(NotObject);
    }
    r := ValidateEntries(v);
    if r.None? && size(v) > MAX_INPUT_BYTES {
      return Some(TooLarge);
    }
  }

  ghost predicate ValidInputs(v: Value, size: Value -> nat) {
    v.Object? && ValidEntries(v) && size(v) <= MAX_INPUT_BYTES
  }

  /** Size is looked at last. */
  ghost predicate InputFault(v: Value, size: Value -> nat, e: InputError) {
    if !v.Object? then e == NotObject
    else if !ValidEntries(v) then Faulty(v, e)
    else size(v) > MAX_INPUT_BYTES && e == TooLarge
  }

  // ---- Merging --------------------------------------------------------------------

  /** Objects merge by key; anything else, null included, replaces. */
  function Merge(base: Value, overlay: Value): Value
    decreases overlay
  {
    if base.Object? && overlay.Object? then
      Object(map k | k in base.fields.Keys + overlay.fields.Keys ::
               if k !in overlay.fields then base.fields[k]
               else if k !in base.fields then overlay.fields[k]
               else Merge(base.fields[k], overlay.fields[k]))
    else overlay
  }

  method MergeValue(base: Value, overlay: Value) returns (merged: Value)
    ensures merged == Merge(base, overlay)
    decreases overlay
  {
    if !base.Object? || !overlay.Object? {
      return overlay;
    }
    var fields := base.fields;
    var rest := overlay.fields.Keys;
    while rest != {}
      invariant rest <= overlay.fields.Keys
      invariant fields.Keys == base.fields.Keys + (overlay.fields.Keys - rest)
      invariant forall k :: k in fields ==>
                  fields[k] == if k !in overlay.fields || k in rest then base.fields[k]
                               else if k !in base.fields then overlay.fields[k]
                               else Merge(base.fields[k], overlay.fields[k])
      decreases rest
    {
      var k :| k in rest;
      if k in fields {
        var nested := MergeValue(fields[k], overlay.fields[k]);
        fields := fields[k := nested];
      } else {
        fields := fields[k := overlay.fields[k]];
      }
      rest := rest - {k};
    }
    assert fields == Merge(base, overlay).fields;
    return Object(fields);
  }

  /** The value at a path of keys. */
  function Lookup(v: Value, path: seq<string>): Option<Value>
    decreases |path|
  {
    if path == [] then Some(v)
    else if v.Object? && path[0] in v.fields then Lookup(v.fields[path[0]], path[1..])
    else None
  }

  /** `v` has nothing at the path and no non-object on the way to it. */
  predicate Silent(v: Value, path: seq<string>)
    decreases |path|
  {
    path != [] && v.Object? && (path[0] in v.fields ==> Silent(v.fields[path[0]], path[1..]))
  }

  /** Layer precedence, path by path: what a merge holds anywhere. */
  lemma {:induction false} MergeAt(base: Value, overlay: Value, path: seq<string>)
    ensures Lookup(Merge(base, overlay), path) ==
            var b, o := Lookup(base, path), Lookup(overlay, path);
            if Silent(overlay, path) then b
            else if o.Some? && o.value.Object? && b.Some? && b.value.Object? then Some(Merge(b.value, o.value))
            else o
    decreases |path|
  {
    SilentMeans(overlay, path);
    if path != [] && base.Object? && overlay.Object? && path[0] in base.fields && path[0] in overlay.fields {
      MergeAt(base.fields[path[0]], overlay.fields[path[0]], path[1..]);
    }
  }

  /** What speaks at a path, seen from the outside: nothing there, and only objects before it. */
  lemma {:induction false} SilentMeans(v: Value, path: seq<string>)
    ensures Silent(v, path) <==>
            && Lookup(v, path).None?
            && forall n :: 0 <= n < |path| && Lookup(v, path[..n]).Some? ==> Lookup(v, path[..n]).value.Object?
    decreases |path|
  {
    if path != [] {
      assert path[..0] == [] && Lookup(v, []) == Some(v);
      if v.Object? && path[0] in v.fields {
        SilentMeans(v.fields[path[0]], path[1..]);
        forall n | 0 < n < |path| ensures Lookup(v, path[..n]) == Lookup(v.fields[path[0]], path[1..][..n - 1]) {
          assert path[..n][1..] == path[1..][..n - 1];
        }
        forall n | 0 <= n < |path| - 1 ensures Lookup(v, path[..n + 1]) == Lookup(v.fields[path[0]], path[1..][..n]) {
          assert path[..n + 1][1..] == path[1..][..n];
        }
      } else if v.Object? {
        forall n | 0 < n < |path| ensures Lookup(v, path[..n]).None? {
          assert path[..n][0] == path[0];
        }
      }
    }
  }

  /** The left fold the program performs, from least to most specific. */
  function MergeAll(layers: seq<Value>): Value {
    if layers == [] then Object(map[])
    else Merge(MergeAll(layers[..|layers| - 1]), layers[|layers| - 1])
  }

  /** Layer `i` decides the path: it holds `x` there and every later layer is silent. */
  ghost predicate Decides(layers: seq<Value>, path: seq<string>, i: nat, x: Value)
    requires i < |layers|
  {
    && Lookup(layers[i], path) == Some(x)
    && forall j :: i < j < |layers| ==> Silent(layers[j], path)
  }

  /** A path ends in a leaf exactly when the last layer that speaks at it holds that leaf. */
  lemma {:induction false} LastSpeakerWins(layers: seq<Value>, path: seq<string>, x: Value)
    requires !x.Object?
    ensures Lookup(MergeAll(layers), path) == Some(x) <==>
            exists i :: 0 <= i < |layers| && Decides(layers, path, i, x)
  {
    if layers != [] {
      var n := |layers| - 1;
      var front := layers[..n];
      LastSpeakerWins(front, path, x);
      MergeAt(MergeAll(front), layers[n], path);
      SilentMeans(layers[n], path);
      if i :| 0 <= i < n && Decides(front, path, i, x) && Silent(layers[n], path) {
        assert Decides(layers, path, i, x);
      }
      if Lookup(layers[n], path) == Some(x) {
        assert Decides(layers, path, n, x);
      }
      if i :| 0 <= i < n && Decides(layers, path, i, x) {
        assert Decides(front, path, i, x);
      }
    }
  }

  lemma {:induction false} MergeSelf(v: Value)
    ensures Merge(v, v) == v
  {
    if v.Object? {
      forall k | k in v.fields ensures Merge(v.fields[k], v.fields[k]) == v.fields[k] {
        MergeSelf(v.fields[k]);
      }
      assert Merge(v, v).fields == v.fields;
    }
  }

  /** Re-merging the same layer changes nothing. */
  lemma {:induction false} MergeAgain(base: Value, overlay: Value)
    ensures Merge(Merge(base, overlay), overlay) == Merge(base, overlay)
    decreases overlay
  {
    if base.Object? && overlay.Object? {
      var merged := Merge(base, overlay);
      forall k | k in overlay.fields
        ensures Merge(merged.fields[k], overlay.fields[k]) == merged.fields[k]
      {
        if k in base.fields {
          MergeAgain(base.fields[k], overlay.fields[k]);
        } else {
          MergeSelf(overlay.fields[k]);
        }
      }
      assert Merge(merged, overlay).fields == merged.fields;
    } else {
      MergeSelf(overlay);
    }
  }

  lemma {:induction false} MergeKeepsEntries(base: Value, overlay: Value)
    requires ValidEntries(base) && ValidEntries(overlay)
    ensures ValidEntries(Merge(base, overlay))
    decreases overlay
  {
    if base.Object? && overlay.Object? {
      forall k | k in base.fields && k in overlay.fields
        ensures ValidEntries(Merge(base.fields[k], overlay.fields[k]))
      {
        MergeKeepsEntries(base.fields[k], overlay.fields[k]);
      }
    }
  }

  lemma {:induction false} MergeAllKeepsEntries(layers: seq<Value>)
    requires forall i :: 0 <= i < |layers| ==> layers[i].Object? && ValidEntries(layers[i])
    ensures MergeAll(layers).Object? && ValidEntries(MergeAll(layers))
  {
    if layers != [] {
      var n := |layers| - 1;
      MergeAllKeepsEntries(layers[..n]);
      MergeKeepsEntries(MergeAll(layers[..n]), layers[n]);
    }
  }

  /** Valid layers fail to merge only through the size of the result. */
  method MergeInputs(layers: seq<Value>, size: Value -> nat) returns (r: Result<Value, InputError>)
    ensures r.Ok? <==>
            && (forall i :: 0 <= i < |layers| ==> ValidInputs(layers[i], size))
            && size(MergeAll(layers)) <= MAX_INPUT_BYTES
    ensures r.Ok? ==> r.value == MergeAll(layers) && ValidInputs(r.value, size)
    ensures r.Err? ==>
              || (exists i :: 0 <= i < |layers| && InputFault(layers[i], size, r.error))
              || (r.error == TooLarge && forall i :: 0 <= i < |layers| ==> ValidInputs(layers[i], size))
  {
    var merged := Object(map[]);
    for i := 0 to |layers|
      invariant merged == MergeAll(layers[..i])
      invariant forall j :: 0 <= j < i ==> ValidInputs(layers[j], size)
    {
      var fault := ValidateInputs(layers[i], size);
      if fault.Some? {
        return Err(fault.value);
      }
      merged := MergeValue(merged, layers[i]);
      assert layers[..i + 1][..i] == layers[..i];
    }
    assert layers[..|layers|] == layers;
    MergeAllKeepsEntries(layers);
    var fault := ValidateInputs(merged, size);
    if fault.Some? {
      return Err(fault.value);
    }
    return Ok(merged);
  }

  // ---- How the merge differs from its relatives ------------------------------------

  /** Where both are objects, every key of `a` is also in `c`, at every depth. */
  ghost predicate Within(a: Value, c: Value)
    decreases c
  {
    a.Object? && c.Object? ==> forall k :: k in a.fields ==> k in c.fields && Within(a.fields[k], c.fields[k])
  }

  /** A layer adds nothing beneath another exactly when its object keys all lie within it. */
  lemma {:induction false} AddsNothingIff(a: Value, c: Value)
    ensures Merge(a, c) == c <==> Within(a, c)
    decreases c
  {
    if a.Object? && c.Object? {
      forall k | k in a.fields && k in c.fields
        ensures Merge(a.fields[k], c.fields[k]) == c.fields[k] <==> Within(a.fields[k], c.fields[k])
      {
        AddsNothingIff(a.fields[k], c.fields[k]);
      }
      if Within(a, c) {
        assert Merge(a, c).fields == c.fields;
      }
      if Merge(a, c) == c {
        forall k | k in a.fields ensures k in c.fields && Within(a.fields[k], c.fields[k]) {
          assert k in Merge(a, c).fields;
        }
      }
    }
  }

  /** The middle layer hides no object key that the outer two would otherwise merge. */
  ghost predicate Regroups(a: Value, b: Value, c: Value)
    decreases b
  {
    if !a.Object? || !c.Object? then true
    else if !b.Object? then Within(a, c)
    else forall k :: k in b.fields && k in a.fields && k in c.fields ==>
           Regroups(a.fields[k], b.fields[k], c.fields[k])
  }

  /** Grouping matters exactly where a non-object separates an object from one that lacks some of its keys. */
  lemma {:induction false} RegroupIff(a: Value, b: Value, c: Value)
    ensures Merge(Merge(a, b), c) == Merge(a, Merge(b, c)) <==> Regroups(a, b, c)
    decreases b
  {
    AddsNothingIff(a, c);
    if a.Object? && b.Object? && c.Object? {
      var left, right := Merge(Merge(a, b), c), Merge(a, Merge(b, c));
      forall k | k in a.fields && k in b.fields && k in c.fields
        ensures left.fields[k] == right.fields[k] <==> Regroups(a.fields[k], b.fields[k], c.fields[k])
      {
        RegroupIff(a.fields[k], b.fields[k], c.fields[k]);
      }
      assert left.fields.Keys == right.fields.Keys;
      if Regroups(a, b, c) {
        assert left.fields == right.fields;
      }
    }
  }

  /** `{x:{p:1}}`, `{x:5}`, `{x:{q:2}}` depend on the grouping. */
  lemma GroupingMatters()
    ensures var a, b, c := Object(map["x" := Object(map["p" := Number("1")])]),
                           Object(map["x" := Number("5")]),
                           Object(map["x" := Object(map["q" := Number("2")])]);
            Merge(Merge(a, b), c) != Merge(a, Merge(b, c))
  {
    var a, b, c := Object(map["x" := Object(map["p" := Number("1")])]),
                   Object(map["x" := Number("5")]),
                   Object(map["x" := Object(map["q" := Number("2")])]);
    MergeAt(Merge(a, b), c, ["x", "p"]);
    MergeAt(a, Merge(b, c), ["x", "p"]);
    assert Lookup(Merge(Merge(a, b), c), ["x", "p"]).None?;
    assert Lookup(Merge(a, Merge(b, c)), ["x", "p"]).Some?;
  }

  // ---- Alphabet ---------------------------------------------------------------------------------

  const LETTERS := "abcdefghijklmnopqrstuvwxyz"
  const DIGITS := "0123456789"

  /** A key starts with a lower-case letter or an underscore and goes on with those, digits and hyphens. */
  lemma SegmentAlphabet(s: string)
    ensures ValidSegment(s) <==>
            && s != "" && (s[0] in LETTERS || s[0] == '_')
            && forall i :: 0 < i < |s| ==> s[i] in LETTERS || s[i] in DIGITS || s[i] == '_' || s[i] == '-'
  {
    forall i | 0 <= i < |s|
      ensures FirstChar(s[i]) <==> s[i] in LETTERS || s[i] == '_'
      ensures SegmentChar(s[i]) <==> s[i] in LETTERS || s[i] in DIGITS || s[i] == '_' || s[i] == '-'
    {
      LowerCase(s[i]);
      Decimal(s[i]);
    }
  }

  lemma LowerCase(c: char)
    ensures 'a' <= c <= 'z' <==> c in LETTERS
  {
    if 'a' <= c <= 'z' {
      var k := c as int - 'a' as int;
      assert LETTERS[k] == 'a' + k as char;
    }
  }

  lemma Decimal(c: char)
    ensures '0' <= c <= '9' <==> c in DIGITS
  {
    if '0' <= c <= '9' {
      var k := c as int - '0' as int;
      assert DIGITS[k] == '0' + k as char;
    }
  }

  // ---- Every depth -----------------------------------------------------------------------------

  /** A step into a value: a key of an object or a position of an array. */
  datatype Step = Key(key: string) | Index(index: nat)

  function At(v: Value, steps: seq<Step>): Option<Value>
    decreases |steps|
  {
    if steps == [] then Some(v)
    else if steps[0].Key? && v.Object? && steps[0].key in v.fields then At(v.fields[steps[0].key], steps[1..])
    else if steps[0].Index? && v.Array? && steps[0].index < |v.items| then At(v.items[steps[0].index], steps[1..])
    else None
  }

  /** A string without NUL, or an object with path-safe keys, or anything else. */
  ghost predicate SafeHere(v: Value) {
    && (v.Str? ==> forall i :: 0 <= i < |v.text| ==> v.text[i] != '\0')
    && (v.Object? ==> forall k :: k in v.fields ==> ValidSegment(k))
  }

  /** Entries are valid exactly when every value inside, however deep, is safe by itself. */
  lemma {:induction false} ValidMeansEverywhere(v: Value)
    ensures ValidEntries(v) <==> forall p :: At(v, p).Some? ==> SafeHere(At(v, p).value)
  {
    if ValidEntries(v) {
      forall p | At(v, p).Some? ensures SafeHere(At(v, p).value) {
        ValidReaches(v, p);
      }
    } else {
      var p := FaultPath(v);
    }
  }

  lemma {:induction false} ValidReaches(v: Value, p: seq<Step>)
    requires ValidEntries(v) && At(v, p).Some?
    ensures SafeHere(At(v, p).value)
    decreases |p|
  {
    if p != [] {
      if p[0].Key? {
        ValidReaches(v.fields[p[0].key], p[1..]);
      } else {
        ValidReaches(v.items[p[0].index], p[1..]);
      }
    }
  }

  lemma {:induction false} FaultPath(v: Value) returns (p: seq<Step>)
    requires !ValidEntries(v)
    ensures At(v, p).Some? && !SafeHere(At(v, p).value)
  {
    p := [];
    if v.Object? && SafeHere(v) {
      var k :| k in v.fields && !ValidEntries(v.fields[k]);
      var rest := FaultPath(v.fields[k]);
      p := [Key(k)] + rest;
      assert p[1..] == rest;
    } else if v.Array? {
      var i :| 0 <= i < |v.items| && !ValidEntries(v.items[i]);
      var rest := FaultPath(v.items[i]);
      p := [Index(i)] + rest;
      assert p[1..] == rest;
    }
  }
}
