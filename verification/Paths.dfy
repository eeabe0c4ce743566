/** Dotted paths: splitting, joining, rendering one path, and listing the renderable ones. */
module Paths {
  import opened Base
  import opened Inputs

  /** `split('.')`: the empty string is one empty segment. */
  function Split(s: string): (r: seq<string>)
    ensures |r| > 0
  {
    if s == "" then [""]
    else
      var rest := Split(s[1..]);
      if s[0] == '.' then [""] + rest
      else [[s[0]] + rest[0]] + rest[1..]
  }

  function Join(path: seq<string>): string {
    if path == [] then ""
    else if |path| == 1 then path[0]
    else path[0] + "." + Join(path[1..])
  }

  ghost predicate DotFree(s: string) {
    forall i :: 0 <= i < |s| ==> s[i] != '.'
  }

  ghost predicate AllSegments(path: seq<string>) {
    forall i :: 0 <= i < |path| ==> ValidSegment(path[i])
  }

  lemma {:induction false} JoinSplit(s: string)
    ensures Join(Split(s)) == s
  {
    if s != "" {
      JoinSplit(s[1..]);
      var rest := Split(s[1..]);
      if s[0] == '.' {
        assert ([""] + rest)[1..] == rest;
        assert s == "." + s[1..];
      } else {
        var r := [[s[0]] + rest[0]] + rest[1..];
        assert r[1..] == rest[1..];
        assert s == [s[0]] + s[1..];
        if |rest| > 1 {
          assert Join(r) == [s[0]] + rest[0] + "." + Join(rest[1..]);
        }
      }
    }
  }

  lemma {:induction false} SplitSegment(segment: string, rest: string)
    requires DotFree(segment)
    ensures Split(segment) == [segment]
    ensures Split(segment + "." + rest) == [segment] + Split(rest)
  {
    var s := segment + "." + rest;
    if segment == "" {
      assert s[1..] == rest;
    } else {
      SplitSegment(segment[1..], rest);
      assert s[1..] == segment[1..] + "." + rest;
      assert segment == [segment[0]] + segment[1..];
      assert Split(segment[1..])[1..] == [];
      assert ([segment[1..]] + Split(rest))[1..] == Split(rest);
    }
  }

  /** Valid keys make joining and splitting inverse. */
  lemma {:induction false} SplitJoin(path: seq<string>)
    requires path != [] && AllSegments(path)
    ensures Split(Join(path)) == path
  {
    assert ValidSegment(path[0]);
    SplitSegment(path[0], Join(path[1..]));
    if |path| > 1 {
      assert AllSegments(path[1..]);
      SplitJoin(path[1..]);
      assert path == [path[0]] + path[1..];
    } else {
      assert path == [path[0]];
    }
  }

  lemma {:induction false} JoinMore(path: seq<string>, key: string)
    requires path != []
    ensures Join(path + [key]) == Join(path) + "." + key
  {
    var more := path + [key];
    assert more[1..] == path[1..] + [key];
    if |path| > 1 {
      JoinMore(path[1..], key);
    } else {
      assert more[1..] == [key];
    }
  }

  // ---- Rendering one path -----------------------------------------------------------

  predicate Scalar(v: Value) {
    v.Str? || v.Number? || v.Bool?
  }

  function Text(v: Value): string {
    match v
    case Str(text) => text
    case Number(literal) => literal
    case Bool(flag) => if flag then "true" else "false"
    case _ => ""
  }

  /** What a dotted path stands for. */
  function Rendered(inputs: Value, path: string): Result<string, InputError> {
    var found := Lookup(inputs, Split(path));
    if found.None? then Err(MissingVariable(path))
    else if Scalar(found.value) then Ok(Text(found.value))
    else Err(NonScalarVariable(path))
  }

  /** What is found at a path becomes text verbatim, or a failure that names the path. */
  ghost predicate Reads(found: Option<Value>, path: string, r: Result<string, InputError>) {
    && (found.None? ==> r == Err(MissingVariable(path)))
    && (forall t :: found == Some(Str(t)) ==> r == Ok(t))
    && (forall l :: found == Some(Number(l)) ==> r == Ok(l))
    && (found == Some(Bool(true)) ==> r == Ok("true"))
    && (found == Some(Bool(false)) ==> r == Ok("false"))
    && (found.Some? && (found.value.Null? || found.value.Array? || found.value.Object?) ==>
          r == Err(NonScalarVariable(path)))
  }

  lemma RenderedReads(inputs: Value, path: string)
    ensures Reads(Lookup(inputs, Split(path)), path, Rendered(inputs, path))
  {
  }

  method RenderPath(inputs: Value, path: string) returns (r: Result<string, InputError>)
    ensures r == Rendered(inputs, path)
    ensures Reads(Lookup(inputs, Split(path)), path, r)
  {
    var value, rest := inputs, Split(path);
    while rest != []
      invariant Lookup(inputs, Split(path)) == Lookup(value, rest)
      decreases |rest|
    {
      if !value.Object? || rest[0] !in value.fields {
        return Err(MissingVariable(path));
      }
      value, rest := value.fields[rest[0]], rest[1..];
    }
    match value
    case Str(text) => return Ok(text);
    case Number(literal) => return Ok(literal);
    case Bool(flag) => return Ok(if flag then "true" else "false");
    case _ => return Err(NonScalarVariable(path));
  }

  // ---- Listing the renderable paths --------------------------------------------------

  ghost predicate ScalarAt(v: Value, path: seq<string>) {
    path != [] && Lookup(v, path).Some? && Scalar(Lookup(v, path).value)
  }

  /** `s` names a scalar of `v` below `at`. */
  ghost predicate Names(v: Value, at: seq<string>, s: string) {
    exists p :: ScalarAt(v, p) && s == Join(at + p)
  }

  /** `s` names a scalar of `v` below `at`, through one of the given keys. */
  ghost predicate NamesVia(v: Value, at: seq<string>, keys: set<string>, s: string) {
    exists p :: ScalarAt(v, p) && p[0] in keys && s == Join(at + p)
  }

  /** A listing of exactly the scalars reached through `keys`, each once. */
  ghost predicate Lists(v: Value, at: seq<string>, keys: set<string>, listed: seq<string>) {
    Distinct(listed) && forall s :: s in listed <==> NamesVia(v, at, keys, s)
  }

  ghost predicate Clean(v: Value, at: seq<string>) {
    ValidEntries(v) && AllSegments(at)
  }

  lemma {:induction false} PathIsValid(v: Value, p: seq<string>)
    requires ValidEntries(v) && Lookup(v, p).Some?
    ensures AllSegments(p)
    decreases |p|
  {
    if p != [] {
      PathIsValid(v.fields[p[0]], p[1..]);
      assert p == [p[0]] + p[1..];
    }
  }

  /** Different keys never produce the same name. */
  lemma NamesDiffer(v: Value, at: seq<string>, p: seq<string>, q: seq<string>)
    requires Clean(v, at) && ScalarAt(v, p) && ScalarAt(v, q) && Join(at + p) == Join(at + q)
    ensures p == q
  {
    PathIsValid(v, p);
    PathIsValid(v, q);
    SplitJoin(at + p);
    SplitJoin(at + q);
    assert p == (at + p)[|at|..] && q == (at + q)[|at|..];
  }

  lemma NamesScalarKey(v: Value, at: seq<string>, k: string, s: string)
    requires v.Object? && k in v.fields && Scalar(v.fields[k])
    ensures NamesVia(v, at, {k}, s) <==> s == Join(at + [k])
  {
    assert [k][1..] == [] && ScalarAt(v, [k]);
    if p :| ScalarAt(v, p) && p[0] in {k} && s == Join(at + p) {
      assert p == [k] + p[1..];
      assert Lookup(v, p) == Lookup(v.fields[k], p[1..]);
      assert p == [k];
    }
  }

  lemma NamesNestedKey(v: Value, at: seq<string>, k: string, s: string)
    requires v.Object? && k in v.fields && !Scalar(v.fields[k])
    ensures NamesVia(v, at, {k}, s) <==> Names(v.fields[k], at + [k], s)
  {
    if p :| ScalarAt(v, p) && p[0] in {k} && s == Join(at + p) {
      assert p == [k] + p[1..];
      assert at + p == at + [k] + p[1..];
      assert Lookup(v, p) == Lookup(v.fields[k], p[1..]);
      assert ScalarAt(v.fields[k], p[1..]);
    }
    if p :| ScalarAt(v.fields[k], p) && s == Join(at + [k] + p) {
      assert ([k] + p)[1..] == p;
      assert at + ([k] + p) == at + [k] + p;
      assert ScalarAt(v, [k] + p);
    }
  }

  /** What one key contributes: itself if scalar, otherwise what lies below it. */
  lemma ListsKey(v: Value, at: seq<string>, k: string, more: seq<string>)
    requires v.Object? && k in v.fields
    requires if Scalar(v.fields[k]) then more == [Join(at + [k])]
             else Distinct(more) && forall s :: s in more <==> Names(v.fields[k], at + [k], s)
    ensures Lists(v, at, {k}, more)
  {
    hide Names, NamesVia;
    forall s ensures s in more <==> NamesVia(v, at, {k}, s) {
      if Scalar(v.fields[k]) {
        NamesScalarKey(v, at, k, s);
      } else {
        NamesNestedKey(v, at, k, s);
      }
    }
  }

  lemma NamesViaEither(v: Value, at: seq<string>, keys: set<string>, k: string, s: string)
    requires Clean(v, at) && k !in keys
    ensures NamesVia(v, at, keys + {k}, s) <==> NamesVia(v, at, keys, s) || NamesVia(v, at, {k}, s)
    ensures !(NamesVia(v, at, keys, s) && NamesVia(v, at, {k}, s))
  {
    if NamesVia(v, at, keys, s) && NamesVia(v, at, {k}, s) {
      var p :| ScalarAt(v, p) && p[0] in keys && s == Join(at + p);
      var q :| ScalarAt(v, q) && q[0] in {k} && s == Join(at + q);
      NamesDiffer(v, at, p, q);
    }
  }

  /** Adding one key's listing to a listing of other keys. */
  lemma ListsMore(v: Value, at: seq<string>, keys: set<string>, k: string, listed: seq<string>, more: seq<string>)
    requires Clean(v, at) && k !in keys && Lists(v, at, keys, listed) && Lists(v, at, {k}, more)
    ensures Lists(v, at, keys + {k}, listed + more)
  {
    hide NamesVia;
    forall s
      ensures s in listed + more <==> NamesVia(v, at, keys + {k}, s)
      ensures !(s in listed && s in more)
    {
      NamesViaEither(v, at, keys, k, s);
    }
    forall i, j | 0 <= i < j < |listed + more| ensures (listed + more)[i] != (listed + more)[j] {
      assert i < |listed| <= j ==> (listed + more)[i] in listed && (listed + more)[j] in more;
    }
  }

  lemma PrefixKey(at: seq<string>, k: string)
    requires AllSegments(at)
    ensures Join(at + [k]) == if Join(at) == "" then k else Join(at) + "." + k
  {
    if at == [] {
      assert at + [k] == [k];
    } else {
      JoinMore(at, k);
      assert ValidSegment(at[0]);
    }
  }

  method CollectScalarPaths(v: Value, prefix: string, paths: seq<string>, ghost at: seq<string>)
    returns (r: seq<string>)
    requires AllSegments(at) ==> prefix == Join(at)
    ensures |paths| <= |r| && r[..|paths|] == paths
    ensures Clean(v, at) ==> Distinct(r[|paths|..]) && forall s :: s in r[|paths|..] <==> Names(v, at, s)
    decreases v
  {
    hide Join, NamesVia, Names;
    r := paths;
    ListsNothing(v, at);
    if v.Object? {
      var rest := v.fields.Keys;
      assert v.fields.Keys - rest == {} && r[|paths|..] == [];
      while rest != {}
        invariant rest <= v.fields.Keys && |paths| <= |r| && r[..|paths|] == paths
        invariant Clean(v, at) ==> Lists(v, at, v.fields.Keys - rest, r[|paths|..])
        decreases rest
      {
        var k :| k in rest;
        ghost var before := r;
        var path := if prefix == "" then k else prefix + "." + k;
        if AllSegments(at + [k]) {
          assert forall i :: 0 <= i < |at| ==> (at + [k])[i] == at[i];
          PrefixKey(at, k);
        }
        if Scalar(v.fields[k]) {
          r := r + [path];
        } else {
          r := CollectScalarPaths(v.fields[k], path, r, at + [k]);
        }
        if Clean(v, at) {
          PrefixKey(at, k);
          ListsKey(v, at, k, r[|before|..]);
          ListsMore(v, at, v.fields.Keys - rest, k, before[|paths|..], r[|before|..]);
          assert r[|paths|..] == before[|paths|..] + r[|before|..];
          assert v.fields.Keys - (rest - {k}) == v.fields.Keys - rest + {k};
        }
        rest := rest - {k};
      }
      assert v.fields.Keys - rest == v.fields.Keys;
    }
    ListsEverything(v, at, r[|paths|..]);
  }

  lemma ListsNothing(v: Value, at: seq<string>)
    ensures Lists(v, at, {}, [])
    ensures !v.Object? ==> forall s :: !Names(v, at, s)
  {
  }

  lemma ListsEverything(v: Value, at: seq<string>, listed: seq<string>)
    ensures v.Object? && Lists(v, at, v.fields.Keys, listed) ==>
              Distinct(listed) && forall s :: s in listed <==> Names(v, at, s)
  {
    if v.Object? {
      forall s ensures NamesVia(v, at, v.fields.Keys, s) <==> Names(v, at, s) {
      }
    }
  }

  lemma NamesAreRendered(v: Value, s: string)
    requires v.Object? && ValidEntries(v)
    ensures Names(v, [], s) <==> Rendered(v, s).Ok?
  {
    if p :| ScalarAt(v, p) && s == Join([] + p) {
      assert [] + p == p;
      PathIsValid(v, p);
      SplitJoin(p);
    }
    if Rendered(v, s).Ok? {
      JoinSplit(s);
      assert [] + Split(s) == Split(s);
      assert ScalarAt(v, Split(s));
    }
  }

  /** For validated inputs the listed paths are exactly the renderable ones, each once. */
  method ScalarPaths(inputs: Value) returns (r: seq<string>)
    ensures ValidEntries(inputs) ==> Distinct(r)
    ensures ValidEntries(inputs) && inputs.Object? ==> forall s :: s in r <==> Rendered(inputs, s).Ok?
  {
    hide Names, Rendered;
    r := CollectScalarPaths(inputs, "", [], []);
    assert r == r[0..];
    if inputs.Object? && ValidEntries(inputs) {
      forall s ensures Names(inputs, [], s) <==> Rendered(inputs, s).Ok? {
        NamesAreRendered(inputs, s);
      }
    }
  }
}
