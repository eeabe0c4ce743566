/** Writing templates: escaping arbitrary text, and placing placeholders so that rendering gives it back. */
module TemplateWriting {
  import opened Base
  import opened Inputs
  import opened Paths
  import opened Templates

  /** A backslash before each `{{`, from left to right. */
  function Escape(s: string): string
    decreases |s|
  {
    var open := FindPair(s, '{');
    if open.None? then s
    else s[..open.value] + "\\{{" + Escape(s[open.value + 2..])
  }

  /** What follows the last `{{`. */
  function Residue(s: string): string
    decreases |s|
  {
    var open := FindPair(s, '{');
    if open.None? then s else Residue(s[open.value + 2..])
  }

  /** Text that can stand before a placeholder without absorbing its braces. */
  predicate Detached(s: string) {
    var rest := Residue(s);
    rest != "" ==> rest[|rest| - 1] != '\\' && rest[|rest| - 1] != '{'
  }

  lemma FirstPair(s: string, c: char, i: nat)
    requires i + 1 < |s| && s[i] == c && s[i + 1] == c
    requires forall j :: 0 <= j < i ==> s[j] != c || s[j + 1] != c
    ensures FindPair(s, c) == Some(i)
  {
    var r := FindPair(s, c);
    assert r.Some? && !(r.value < i) && !(i < r.value);
  }

  /** A backslash and two braces after plain text are the first pair. */
  lemma EscapeShape(prefix: string, rest: string)
    requires forall j :: 0 <= j < |prefix| - 1 ==> prefix[j] != '{' || prefix[j + 1] != '{'
    ensures var i, t := |prefix|, prefix + "\\{{" + rest;
            && FindPair(t, '{') == Some(i + 1) && EndsEscaped(t[..i + 1])
            && t[..i] == prefix && t[i + 3..] == rest
  {
    hide FindPair;
    var i, t := |prefix|, prefix + "\\{{" + rest;
    FirstPair(t, '{', i + 1);
  }

  /** Where the first escape of a written text stands. */
  lemma EscapedPair(s: string, tail: string)
    requires FindPair(s, '{').Some?
    ensures var i, t := FindPair(s, '{').value, Escape(s) + tail;
            && FindPair(t, '{') == Some(i + 1)
            && EndsEscaped(t[..i + 1]) && t[..i] == s[..i]
            && t[i + 3..] == Escape(s[i + 2..]) + tail
  {
    hide FindPair, EndsEscaped;
    var i := FindPair(s, '{').value;
    var rest := Escape(s[i + 2..]) + tail;
    assert Escape(s) + tail == s[..i] + "\\{{" + rest;
    EscapeShape(s[..i], rest);
  }

  /** Reading escaped text gives the text back and goes on with what follows it. */
  lemma {:induction false} EscapedReads(s: string, tail: string, inputs: Option<Value>)
    requires tail == "" || (|tail| > 1 && tail[..2] == "{{" && Detached(s))
    ensures Template(Escape(s) + tail, inputs) ==
            if tail == "" then Ok(s) else Prepend(s, Template(tail, inputs))
    decreases |s|
  {
    hide Template, EndsEscaped;
    var t := Escape(s) + tail;
    var open := FindPair(s, '{');
    if open.Some? {
      var i := open.value;
      EscapedReads(s[i + 2..], tail, inputs);
      EscapedStep(s, tail, inputs);
      PrependTwice(s[..i + 2], s[i + 2..], Template(tail, inputs));
      assert s == s[..i + 2] + s[i + 2..];
    } else if tail == "" {
      assert t == s;
      PlainText(s, inputs);
    } else {
      PlainThenSlot(s, tail, inputs);
    }
  }

  lemma EscapedStep(s: string, tail: string, inputs: Option<Value>)
    requires FindPair(s, '{').Some?
    ensures var i := FindPair(s, '{').value;
            Template(Escape(s) + tail, inputs) ==
            Prepend(s[..i + 2], Template(Escape(s[i + 2..]) + tail, inputs))
  {
    hide Template, Escape;
    var i, t := FindPair(s, '{').value, Escape(s) + tail;
    EscapedPair(s, tail);
    AtEscape("", t, inputs);
    PrependTwice("", "", Template(t, inputs));
    assert "" + t[..i] + "{{" == s[..i + 2];
  }

  /** Plain text before a placeholder is its prefix. */
  lemma PlainThenSlot(s: string, tail: string, inputs: Option<Value>)
    requires |tail| > 1 && tail[..2] == "{{" && FindPair(s, '{').None?
    requires s != "" ==> s[|s| - 1] != '\\' && s[|s| - 1] != '{'
    ensures Template(s + tail, inputs) == Prepend(s, Template(tail, inputs))
  {
    hide Template, FindPair, EndsEscaped, Resume;
    PlainShape(s, tail);
    AtOpen(s + tail, inputs);
    AtOpen(tail, inputs);
    PrependTwice(s, "", Resume(tail[2..], inputs));
  }

  /** What a template gives from just after an opening pair. */
  function Resume(rest: string, inputs: Option<Value>): Result<string, InputError> {
    var close := FindPair(rest, '}');
    if close.None? then Err(InvalidTemplate(NotClosed)) else
    var path := Trim(rest[..close.value]);
    if !ValidPath(path) then Err(InvalidTemplate(BadPath(path)))
    else if Slot(inputs, path).Err? then Slot(inputs, path)
    else Prepend(Slot(inputs, path).value, Template(rest[close.value + 2..], inputs))
  }

  lemma AtOpen(t: string, inputs: Option<Value>)
    requires FindPair(t, '{').Some? && !EndsEscaped(t[..FindPair(t, '{').value])
    ensures Template(t, inputs) ==
            Prepend(t[..FindPair(t, '{').value], Resume(t[FindPair(t, '{').value + 2..], inputs))
  {
    hide Trim, ValidPath, Slot, FindPair, EndsEscaped;
    var open := FindPair(t, '{').value;
    var rest := t[open + 2..];
    var close := FindPair(rest, '}');
    if close.Some? && Slot(inputs, Trim(rest[..close.value])).Ok? {
      PrependTwice(t[..open], Slot(inputs, Trim(rest[..close.value])).value,
                   Template(rest[close.value + 2..], inputs));
    }
  }

  lemma PlainShape(s: string, tail: string)
    requires |tail| > 1 && tail[..2] == "{{" && FindPair(s, '{').None?
    requires s != "" ==> s[|s| - 1] != '\\' && s[|s| - 1] != '{'
    ensures FindPair(s + tail, '{') == Some(|s|) && FindPair(tail, '{') == Some(0)
    ensures (s + tail)[..|s|] == s && (s + tail)[|s| + 2..] == tail[2..] && tail[..0] == ""
    ensures !EndsEscaped(s) && !EndsEscaped("")
  {
    assert tail[0] == tail[..2][0] && tail[1] == tail[..2][1];
    FirstPair(s + tail, '{', |s|);
    FirstPair(tail, '{', 0);
  }

  /** For every text and any inputs, rendering its escaped form returns it. */
  lemma EscapeRoundTrip(s: string, inputs: Option<Value>)
    ensures Template(Escape(s), inputs) == Ok(s)
  {
    EscapedReads(s, "", inputs);
    assert Escape(s) + "" == Escape(s);
  }

  // ---- Placeholders ------------------------------------------------------------------

  ghost predicate Padding(s: string) {
    forall i :: 0 <= i < |s| ==> White(s[i])
  }

  lemma {:induction false} SplitChars(s: string)
    requires forall i, j :: 0 <= i < |Split(s)| && 0 <= j < |Split(s)[i]| ==> SegmentChar(Split(s)[i][j])
    ensures forall k :: 0 <= k < |s| ==> SegmentChar(s[k]) || s[k] == '.'
  {
    if s != "" {
      var rest, all := Split(s[1..]), Split(s);
      forall i, j | 0 <= i < |rest| && 0 <= j < |rest[i]| ensures SegmentChar(rest[i][j]) {
        if s[0] == '.' {
          assert all[i + 1] == rest[i];
        } else if i == 0 {
          assert all[0][j + 1] == rest[0][j];
        } else {
          assert all[i] == rest[i];
        }
      }
      SplitChars(s[1..]);
      assert s[0] != '.' ==> all[0][0] == s[0];
    }
  }

  /** A valid path holds neither braces nor white space. */
  lemma PathChars(path: string)
    requires ValidPath(path)
    ensures forall k :: 0 <= k < |path| ==> path[k] != '}' && !White(path[k])
  {
    forall i, j | 0 <= i < |Split(path)| && 0 <= j < |Split(path)[i]| ensures SegmentChar(Split(path)[i][j]) {
      assert ValidSegment(Split(path)[i]);
    }
    SplitChars(path);
  }

  lemma {:induction false} TrimPadded(left: string, path: string, right: string)
    requires Padding(left) && Padding(right)
    requires path != "" && forall k :: 0 <= k < |path| ==> !White(path[k])
    ensures Trim(left + path + right) == path
    decreases |left| + |right|
  {
    if left != "" {
      var s := left + path + right;
      assert s[1..] == left[1..] + path + right;
      TrimPadded(left[1..], path, right);
    } else {
      var s := left + path + right;
      assert TrimStart(s) == s;
      if right != "" {
        var fewer := right[..|right| - 1];
        TrimPadded(left, path, fewer);
        assert s[..|s| - 1] == left + path + fewer;
        assert TrimStart(left + path + fewer) == left + path + fewer;
      } else {
        assert s == path;
      }
    }
  }

  /** One placeholder followed by the rest of the template. */
  datatype Part = Part(left: string, path: string, right: string, literal: string)

  ghost predicate Writable(head: string, parts: seq<Part>) {
    && (parts != [] ==> Detached(head))
    && (forall i :: 0 <= i < |parts| ==>
          && Padding(parts[i].left) && Padding(parts[i].right) && ValidPath(parts[i].path)
          && (i + 1 < |parts| ==> Detached(parts[i].literal)))
  }

  function Hollow(p: Part): string {
    "{{" + p.left + p.path + p.right + "}}"
  }

  function Write(head: string, parts: seq<Part>): string
    decreases |parts|
  {
    Escape(head) + if parts == [] then "" else Hollow(parts[0]) + Write(parts[0].literal, parts[1..])
  }

  /** The text a written template stands for; the first path without a value fails. */
  function Meaning(head: string, parts: seq<Part>, inputs: Option<Value>): Result<string, InputError>
    decreases |parts|
  {
    if parts == [] then Ok(head) else
    var value := Slot(inputs, parts[0].path);
    if value.Err? then value
    else Prepend(head + value.value, Meaning(parts[0].literal, parts[1..], inputs))
  }

  lemma SlotReads(p: Part, tail: string, inputs: Option<Value>)
    requires Padding(p.left) && Padding(p.right) && ValidPath(p.path)
    ensures Template(Hollow(p) + tail, inputs) ==
            var value := Slot(inputs, p.path);
            if value.Err? then value else Prepend(value.value, Template(tail, inputs))
  {
    hide Trim, ValidPath, Slot, Template, Hollow, FindPair, Padding;
    var t, inner := Hollow(p) + tail, p.left + p.path + p.right;
    SlotShape(p, tail);
    AtSlot("", t, inputs);
    PrependTwice("", "", Template(t, inputs));
    var value := Slot(inputs, p.path);
    if value.Ok? {
      assert "" + "" + value.value == value.value;
    }
  }

  lemma BracesShape(inner: string, tail: string)
    requires forall k :: 0 <= k < |inner| ==> inner[k] != '}'
    ensures var t := "{{" + inner + "}}" + tail;
            && FindPair(t, '{') == Some(0) && t[..0] == "" && t[2..] == inner + "}}" + tail
            && FindPair(t[2..], '}') == Some(|inner|)
            && t[2..][..|inner|] == inner && t[2..][|inner| + 2..] == tail
  {
    hide FindPair;
    var t, rest := "{{" + inner + "}}" + tail, inner + "}}" + tail;
    assert t[2..] == rest;
    FirstPair(t, '{', 0);
    FirstPair(rest, '}', |inner|);
  }

  lemma SlotShape(p: Part, tail: string)
    requires Padding(p.left) && Padding(p.right) && ValidPath(p.path)
    ensures var t, inner := Hollow(p) + tail, p.left + p.path + p.right;
            && FindPair(t, '{') == Some(0) && t[..0] == "" && t[2..] == inner + "}}" + tail
            && FindPair(t[2..], '}') == Some(|inner|)
            && t[2..][..|inner|] == inner && t[2..][|inner| + 2..] == tail
            && Trim(inner) == p.path
  {
    hide Trim, ValidPath, FindPair;
    var inner := p.left + p.path + p.right;
    InnerChars(p);
    BracesShape(inner, tail);
    assert Hollow(p) == "{{" + inner + "}}";
    PathChars(p.path);
    ValidPathNotEmpty(p.path);
    TrimPadded(p.left, p.path, p.right);
  }

  lemma ValidPathNotEmpty(path: string)
    requires ValidPath(path)
    ensures path != ""
  {
  }

  lemma InnerChars(p: Part)
    requires Padding(p.left) && Padding(p.right) && ValidPath(p.path)
    ensures var inner := p.left + p.path + p.right; forall k :: 0 <= k < |inner| ==> inner[k] != '}'
  {
    PathChars(p.path);
  }

  /** Rendering a written template gives each literal verbatim and each path's value in its place. */
  lemma {:induction false} WriteRoundTrip(head: string, parts: seq<Part>, inputs: Option<Value>)
    requires Writable(head, parts)
    ensures Template(Write(head, parts), inputs) == Meaning(head, parts, inputs)
    decreases |parts|
  {
    hide Template, Slot, Escape, Detached, ValidPath;
    if parts == [] {
      EscapeRoundTrip(head, inputs);
      assert Escape(head) + "" == Escape(head);
    } else {
      var p, more := parts[0], parts[1..];
      var tail := Write(p.literal, more);
      WriteRoundTrip(p.literal, more, inputs);
      SlotReads(p, tail, inputs);
      assert (Hollow(p) + tail)[..2] == "{{";
      EscapedReads(head, Hollow(p) + tail, inputs);
      if Slot(inputs, p.path).Ok? {
        PrependTwice(head, Slot(inputs, p.path).value, Template(tail, inputs));
      }
    }
  }

  // ---- Argument lists ------------------------------------------------------------------

  method ValidateArgumentTemplates(arguments: seq<string>) returns (r: Option<InputError>)
    ensures r.None? <==> forall i :: 0 <= i < |arguments| ==> Scan(arguments[i]).fault.None?
    ensures r.Some? ==> r.value.InvalidTemplate?
  {
    hide Template, Scan;
    for i := 0 to |arguments|
      invariant forall j :: 0 <= j < i ==> Scan(arguments[j]).fault.None?
    {
      var parsed := ParseTemplate(arguments[i], None);
      ValidationSeesEveryFault(arguments[i]);
      FaultIsSyntactic(arguments[i]);
      if parsed.Err? {
        return Some(parsed.error);
      }
    }
    return None;
  }

  lemma FaultIsSyntactic(t: string)
    ensures Template(t, None).Err? ==> Template(t, None).error.InvalidTemplate?
  {
    hide Template, Scan;
    TemplateConcatenates(t, None);
  }

  /** Each template stays one argument; all render or the first failure is reported. */
  method RenderArguments(arguments: seq<string>, inputs: Value, size: Value -> nat)
    returns (r: Result<seq<string>, InputError>)
    ensures r.Ok? <==>
            && ValidInputs(inputs, size)
            && forall i :: 0 <= i < |arguments| ==> Template(arguments[i], Some(inputs)).Ok?
    ensures r.Ok? ==>
              && |r.value| == |arguments|
              && forall i :: 0 <= i < |arguments| ==> Template(arguments[i], Some(inputs)) == Ok(r.value[i])
    ensures r.Err? && ValidInputs(inputs, size)
            && (forall i :: 0 <= i < |arguments| ==> Scan(arguments[i]).fault.None?) ==>
              r.error.MissingVariable? || r.error.NonScalarVariable?
  {
    hide Template, Scan;
    var fault := ValidateInputs(inputs, size);
    if fault.Some? {
      return Err(fault.value);
    }
    var rendered: seq<string> := [];
    for i := 0 to |arguments|
      invariant |rendered| == i
      invariant forall j :: 0 <= j < i ==> Template(arguments[j], Some(inputs)) == Ok(rendered[j])
    {
      var one := ParseTemplate(arguments[i], Some(inputs));
      if one.Err? {
        ValidationSeesEveryFault(arguments[i]);
        if Scan(arguments[i]).fault.None? {
          ValidatedFailsOnlyOnValues(arguments[i], inputs);
        }
        return Err(one.error);
      }
      rendered := rendered + [one.value];
    }
    return Ok(rendered);
  }

  /** Every listed path can be used as a placeholder. */
  lemma ListedPathsRender(inputs: Value, path: string)
    requires inputs.Object? && ValidEntries(inputs) && Rendered(inputs, path).Ok?
    ensures ValidPath(path)
    ensures Template("{{" + path + "}}", Some(inputs)) == Rendered(inputs, path)
  {
    hide Template;
    PathIsValid(inputs, Split(path));
    assert path != "" by {
      assert Split("") == [""];
    }
    var p := Part("", path, "", "");
    assert Hollow(p) + "" == "{{" + path + "}}";
    SlotReads(p, "", Some(inputs));
    EscapeRoundTrip("", Some(inputs));
    assert Escape("") == "";
    var text := Rendered(inputs, path).value;
    assert text + "" == text;
  }

  // ---- Single placeholders and faults --------------------------------------------------------

  /** A placeholder on its own renders to what is found at its path, or fails as that does. */
  lemma PlaceholderReads(inputs: Value, p: Part)
    requires Padding(p.left) && Padding(p.right) && ValidPath(p.path)
    ensures Reads(Lookup(inputs, Split(p.path)), p.path, Template(Hollow(p), Some(inputs)))
  {
    hide Template, ValidPath, Padding, Hollow;
    assert Hollow(p) + "" == Hollow(p);
    SlotReads(p, "", Some(inputs));
    EscapeRoundTrip("", Some(inputs));
    assert Escape("") == "";
    RenderedReads(inputs, p.path);
    if Rendered(inputs, p.path).Ok? {
      var text := Rendered(inputs, p.path).value;
      assert text + "" == text;
    }
  }

  /** Text, then a placeholder that is never closed, is refused whatever the inputs. */
  lemma UnclosedIsRefused(s: string, rest: string, inputs: Option<Value>)
    requires Detached(s) && forall j :: 0 <= j < |rest| - 1 ==> rest[j] != '}' || rest[j + 1] != '}'
    ensures Template(Escape(s) + ("{{" + rest), inputs) == Err(InvalidTemplate(NotClosed))
  {
    var tail := "{{" + rest;
    assert tail[2..] == rest && tail[..2] == "{{" && tail[..0] == "";
    FirstPair(tail, '{', 0);
    hide Template, Detached, Escape;
    EscapedReads(s, tail, inputs);
    AtSlot("", tail, inputs);
    PrependTwice("", "", Template(tail, inputs));
  }

  /** Text, then a placeholder around something that is not a dotted path, is refused and named. */
  lemma BadPathIsRefused(s: string, inner: string, rest: string, inputs: Option<Value>)
    requires Detached(s) && (forall k :: 0 <= k < |inner| ==> inner[k] != '}') && !ValidPath(Trim(inner))
    ensures Template(Escape(s) + ("{{" + inner + "}}" + rest), inputs) == Err(InvalidTemplate(BadPath(Trim(inner))))
  {
    hide Template, Detached, Escape, Trim, ValidPath, FindPair;
    var tail := "{{" + inner + "}}" + rest;
    BracesShape(inner, rest);
    assert tail[..2] == "{{";
    EscapedReads(s, tail, inputs);
    AtSlot("", tail, inputs);
    PrependTwice("", "", Template(tail, inputs));
  }
}
