/** Argument templates: placeholders, escapes, and what rendering preserves. */
module Templates {
  import opened Base
  import opened Inputs
  import opened Paths

  /** The first place where `c` stands twice in a row. */
  function FindPair(s: string, c: char): (r: Option<nat>)
    ensures r.Some? ==> r.value + 1 < |s| && s[r.value] == c && s[r.value + 1] == c
    ensures r.Some? ==> forall j :: 0 <= j < r.value ==> s[j] != c || s[j + 1] != c
    ensures r.None? ==> forall j :: 0 <= j < |s| - 1 ==> s[j] != c || s[j + 1] != c
  {
    if |s| < 2 then None
    else if s[0] == c && s[1] == c then Some(0)
    else
      var rest := FindPair(s[1..], c);
      assert forall j :: 0 < j < |s| ==> s[j] == s[1..][j - 1];
      if rest.Some? then Some(rest.value + 1) else None
  }

  /** Unicode White_Space. */
  predicate White(c: char) {
    var n := c as int;
    || 0x9 <= n <= 0xD || n == 0x20 || n == 0x85 || n == 0xA0 || n == 0x1680
    || 0x2000 <= n <= 0x200A || n == 0x2028 || n == 0x2029 || n == 0x202F || n == 0x205F || n == 0x3000
  }

  function TrimStart(s: string): string {
    if s != "" && White(s[0]) then TrimStart(s[1..]) else s
  }

  function TrimEnd(s: string): string {
    if s != "" && White(s[|s| - 1]) then TrimEnd(s[..|s| - 1]) else s
  }

  function Trim(s: string): string {
    TrimEnd(TrimStart(s))
  }

  predicate ValidPath(path: string) {
    path != "" && forall i :: 0 <= i < |Split(path)| ==> ValidSegment(Split(path)[i])
  }

  // ---- What a template means ---------------------------------------------------------

  /** Text put in front of a result; an error stays. */
  function Prepend(s: string, r: Result<string, InputError>): Result<string, InputError> {
    if r.Ok? then Ok(s + r.value) else r
  }

  lemma PrependTwice(a: string, b: string, r: Result<string, InputError>)
    ensures Prepend(a, Prepend(b, r)) == Prepend(a + b, r) && Prepend("", r) == r
  {
    if r.Ok? {
      assert a + (b + r.value) == a + b + r.value && "" + r.value == r.value;
    }
  }

  /** A placeholder's value; validation alone leaves the placeholder in place. */
  function Slot(inputs: Option<Value>, path: string): Result<string, InputError> {
    if inputs.Some? then Rendered(inputs.value, path) else Ok("{{" + path + "}}")
  }

  predicate EndsEscaped(prefix: string) {
    prefix != "" && prefix[|prefix| - 1] == '\\'
  }

  function Template(t: string, inputs: Option<Value>): Result<string, InputError>
    decreases |t|
  {
    var open := FindPair(t, '{');
    if open.None? then Ok(t) else
    var prefix, rest := t[..open.value], t[open.value + 2..];
    if EndsEscaped(prefix) then Prepend(prefix[..|prefix| - 1] + "{{", Template(rest, inputs)) else
    var close := FindPair(rest, '}');
    if close.None? then Err(InvalidTemplate(NotClosed)) else
    var path := Trim(rest[..close.value]);
    if !ValidPath(path) then Err(InvalidTemplate(BadPath(path))) else
    var value := Slot(inputs, path);
    if value.Err? then value else Prepend(prefix + value.value, Template(rest[close.value + 2..], inputs))
  }

  /** One escape contributes its prefix and literal braces, and reading goes on after it. */
  lemma AtEscape(before: string, t: string, inputs: Option<Value>)
    requires FindPair(t, '{').Some? && EndsEscaped(t[..FindPair(t, '{').value])
    ensures var open := FindPair(t, '{').value;
            Prepend(before, Template(t, inputs)) ==
            Prepend(before + t[..open - 1] + "{{", Template(t[open + 2..], inputs))
  {
    var open := FindPair(t, '{').value;
    var literal := t[..open][..open - 1] + "{{";
    PrependTwice(before, literal, Template(t[open + 2..], inputs));
    assert before + literal == before + t[..open - 1] + "{{";
  }

  /** One placeholder contributes its prefix and its value, which is not read again. */
  lemma AtSlot(before: string, t: string, inputs: Option<Value>)
    requires FindPair(t, '{').Some? && !EndsEscaped(t[..FindPair(t, '{').value])
    ensures var open := FindPair(t, '{').value;
            var rest := t[open + 2..];
            var close := FindPair(rest, '}');
            Prepend(before, Template(t, inputs)) ==
            if close.None? then Err(InvalidTemplate(NotClosed)) else
            var path := Trim(rest[..close.value]);
            if !ValidPath(path) then Err(InvalidTemplate(BadPath(path)))
            else if Slot(inputs, path).Err? then Slot(inputs, path)
            else Prepend(before + t[..open] + Slot(inputs, path).value, Template(rest[close.value + 2..], inputs))
  {
    hide Trim, ValidPath, Slot;
    var open := FindPair(t, '{').value;
    var rest := t[open + 2..];
    var close := FindPair(rest, '}');
    if close.Some? && Slot(inputs, Trim(rest[..close.value])).Ok? {
      var value := Slot(inputs, Trim(rest[..close.value])).value;
      PrependTwice(before, t[..open] + value, Template(rest[close.value + 2..], inputs));
      assert before + (t[..open] + value) == before + t[..open] + value;
    }
  }

  method ParseTemplate(template: string, inputs: Option<Value>) returns (r: Result<string, InputError>)
    ensures r == Template(template, inputs)
  {
    hide Trim, ValidPath, Rendered, Template, FindPair;
    var output, remaining := "", template;
    PrependTwice("", "", Template(template, inputs));
    while FindPair(remaining, '{').Some?
      invariant Template(template, inputs) == Prepend(output, Template(remaining, inputs))
      decreases |remaining|
    {
      var open := FindPair(remaining, '{').value;
      var prefix := remaining[..open];
      if prefix != "" && prefix[|prefix| - 1] == '\\' {
        AtEscape(output, remaining, inputs);
        output := output + remaining[..open - 1] + "{{";
        remaining := remaining[open + 2..];
        continue;
      }
      AtSlot(output, remaining, inputs);
      output := output + prefix;
      var afterOpen := remaining[open + 2..];
      var close := FindPair(afterOpen, '}');
      if close.None? {
        return Err(InvalidTemplate(NotClosed));
      }
      var path := Trim(afterOpen[..close.value]);
      if !ValidPath(path) {
        return Err(InvalidTemplate(BadPath(path)));
      }
      if inputs.Some? {
        var value := RenderPath(inputs.value, path);
        if value.Err? {
          return value;
        }
        output := output + value.value;
      } else {
        output := output + ("{{" + path + "}}");
      }
      remaining := afterOpen[close.value + 2..];
    }
    PlainText(remaining, inputs);
    return Ok(output + remaining);
  }

  lemma PlainText(t: string, inputs: Option<Value>)
    requires FindPair(t, '{').None?
    ensures Template(t, inputs) == Ok(t)
  {
  }

  // ---- Literal pieces and placeholders ---------------------------------------------------

  datatype Token = Literal(text: string) | Hole(path: string)

  /** A template cut into pieces, up to its first syntax fault. */
  datatype Cut = Cut(tokens: seq<Token>, fault: Option<InputError>)

  function Scan(t: string): (r: Cut)
    ensures r.fault.Some? ==> r.fault.value.InvalidTemplate?
    decreases |t|
  {
    var open := FindPair(t, '{');
    if open.None? then Cut([Literal(t)], None) else
    var prefix, rest := t[..open.value], t[open.value + 2..];
    if EndsEscaped(prefix) then
      var more := Scan(rest);
      Cut([Literal(prefix[..|prefix| - 1] + "{{")] + more.tokens, more.fault)
    else
    var close := FindPair(rest, '}');
    if close.None? then Cut([Literal(prefix)], Some(InvalidTemplate(NotClosed))) else
    var path := Trim(rest[..close.value]);
    if !ValidPath(path) then Cut([Literal(prefix)], Some(InvalidTemplate(BadPath(path)))) else
    var more := Scan(rest[close.value + 2..]);
    Cut([Literal(prefix), Hole(path)] + more.tokens, more.fault)
  }

  function Filled(token: Token, inputs: Option<Value>): Result<string, InputError> {
    match token
    case Literal(text) => Ok(text)
    case Hole(path) => Slot(inputs, path)
  }

  ghost predicate Fills(tokens: seq<Token>, inputs: Option<Value>) {
    forall i :: 0 <= i < |tokens| ==> Filled(tokens[i], inputs).Ok?
  }

  /** The pieces' own texts, one after another. */
  ghost function Concatenated(tokens: seq<Token>, inputs: Option<Value>): string
    requires Fills(tokens, inputs)
  {
    if tokens == [] then ""
    else Filled(tokens[0], inputs).value + Concatenated(tokens[1..], inputs)
  }

  /** The first piece that cannot be filled. */
  ghost predicate FirstFault(tokens: seq<Token>, inputs: Option<Value>, e: InputError) {
    exists i ::
      && 0 <= i < |tokens| && Filled(tokens[i], inputs) == Err(e)
      && forall j :: 0 <= j < i ==> Filled(tokens[j], inputs).Ok?
  }

  /** What the pieces give: all their texts, or the earliest failure from left to right. */
  ghost predicate Gives(cut: Cut, inputs: Option<Value>, r: Result<string, InputError>) {
    if !Fills(cut.tokens, inputs) then r.Err? && FirstFault(cut.tokens, inputs, r.error)
    else if cut.fault.Some? then r == Err(cut.fault.value)
    else r == Ok(Concatenated(cut.tokens, inputs))
  }

  lemma GivesLonger(token: Token, cut: Cut, inputs: Option<Value>, r: Result<string, InputError>)
    requires Gives(cut, inputs, r)
    ensures var filled := Filled(token, inputs);
            Gives(Cut([token] + cut.tokens, cut.fault), inputs,
                  if filled.Err? then filled else Prepend(filled.value, r))
  {
    var tokens := [token] + cut.tokens;
    assert tokens[1..] == cut.tokens;
    if Filled(token, inputs).Err? {
      assert Filled(tokens[0], inputs).Err?;
    } else if !Fills(cut.tokens, inputs) {
      var i :| && 0 <= i < |cut.tokens| && Filled(cut.tokens[i], inputs) == Err(r.error)
               && forall j :: 0 <= j < i ==> Filled(cut.tokens[j], inputs).Ok?;
      assert tokens[i + 1] == cut.tokens[i];
      assert FirstFault(tokens, inputs, r.error);
    } else {
      assert Fills(tokens, inputs);
    }
  }

  /** Rendering concatenates literal pieces and looked-up values, with no rescan. */
  lemma {:induction false} TemplateConcatenates(t: string, inputs: Option<Value>)
    ensures Gives(Scan(t), inputs, Template(t, inputs))
    decreases |t|
  {
    hide Trim, ValidPath, Slot, Gives;
    var open := FindPair(t, '{');
    if open.None? {
      GivesOne(t, None, inputs);
    } else {
      var prefix, rest := t[..open.value], t[open.value + 2..];
      var close := FindPair(rest, '}');
      if EndsEscaped(prefix) {
        TemplateConcatenates(rest, inputs);
        GivesLonger(Literal(prefix[..|prefix| - 1] + "{{"), Scan(rest), inputs, Template(rest, inputs));
      } else if close.None? {
        GivesOne(prefix, Some(InvalidTemplate(NotClosed)), inputs);
      } else if !ValidPath(Trim(rest[..close.value])) {
        GivesOne(prefix, Some(InvalidTemplate(BadPath(Trim(rest[..close.value])))), inputs);
      } else {
        var tail := rest[close.value + 2..];
        TemplateConcatenates(tail, inputs);
        GivesHole(prefix, Trim(rest[..close.value]), Scan(tail), inputs, Template(tail, inputs));
      }
    }
  }

  lemma GivesHole(prefix: string, path: string, more: Cut, inputs: Option<Value>, r: Result<string, InputError>)
    requires Gives(more, inputs, r)
    ensures var value := Slot(inputs, path);
            Gives(Cut([Literal(prefix), Hole(path)] + more.tokens, more.fault), inputs,
                  if value.Err? then value else Prepend(prefix + value.value, r))
  {
    hide Slot, Gives;
    GivesLonger(Hole(path), more, inputs, r);
    var value := Slot(inputs, path);
    var r' := if value.Err? then value else Prepend(value.value, r);
    GivesLonger(Literal(prefix), Cut([Hole(path)] + more.tokens, more.fault), inputs, r');
    assert [Literal(prefix)] + ([Hole(path)] + more.tokens) == [Literal(prefix), Hole(path)] + more.tokens;
    if value.Ok? {
      PrependTwice(prefix, value.value, r);
    }
  }

  lemma GivesOne(text: string, fault: Option<InputError>, inputs: Option<Value>)
    ensures Gives(Cut([Literal(text)], fault), inputs, if fault.Some? then Err(fault.value) else Ok(text))
  {
    assert text + "" == text;
  }

  /**
   A template that passes validation renders exactly when each of its paths does,
   and fails only through a missing or structured value.
   */
  lemma ValidatedFailsOnlyOnValues(t: string, inputs: Value)
    requires Template(t, None).Ok?
    ensures var r := Template(t, Some(inputs));
            && (r.Ok? <==> forall i :: 0 <= i < |Scan(t).tokens| && Scan(t).tokens[i].Hole? ==>
                             Rendered(inputs, Scan(t).tokens[i].path).Ok?)
            && (r.Err? ==> r.error.MissingVariable? || r.error.NonScalarVariable?)
  {
    hide Template, Scan;
    TemplateConcatenates(t, None);
    TemplateConcatenates(t, Some(inputs));
    var tokens := Scan(t).tokens;
    assert Fills(tokens, Some(inputs)) <==>
           forall i :: 0 <= i < |tokens| && tokens[i].Hole? ==> Rendered(inputs, tokens[i].path).Ok?;
  }

  /** Validation accepts exactly the templates without a syntax fault. */
  lemma ValidationSeesEveryFault(t: string)
    ensures Template(t, None).Ok? <==> Scan(t).fault.None?
    ensures Scan(t).fault.Some? ==> forall v :: Template(t, Some(v)).Err?
  {
    hide Template, Scan;
    TemplateConcatenates(t, None);
    forall v ensures Gives(Scan(t), Some(v), Template(t, Some(v))) {
      TemplateConcatenates(t, Some(v));
    }
  }

  // ---- Tables --------------------------------------------------------------------------------------

  const WHITE_SPACE := "\t\n\U{B}\U{C}\r \U{85}\U{A0}\U{1680}\U{2000}\U{2001}\U{2002}\U{2003}\U{2004}\U{2005}" +
                       "\U{2006}\U{2007}\U{2008}\U{2009}\U{200A}\U{2028}\U{2029}\U{202F}\U{205F}\U{3000}"

  /** The characters that may pad a placeholder are the twenty-five of Unicode White_Space. */
  lemma WhiteSpaceTable(c: char)
    ensures White(c) <==> c in WHITE_SPACE
  {
    assert |WHITE_SPACE| == 25;
    var n := c as int;
    if White(c) {
      var k :=
        if n <= 0xD then n - 0x9 else if n == 0x20 then 5 else if n == 0x85 then 6 else if n == 0xA0 then 7
        else if n == 0x1680 then 8 else if n <= 0x200A then n - 0x2000 + 9 else if n == 0x2028 then 20
        else if n == 0x2029 then 21 else if n == 0x202F then 22 else if n == 0x205F then 23 else 24;
      assert WHITE_SPACE[k] == c;
    }
  }

  /** Placeholder paths are exactly the valid keys joined by dots. */
  lemma ValidPathIsJoined(path: string)
    ensures ValidPath(path) <==> exists keys :: keys != [] && AllSegments(keys) && path == Join(keys)
  {
    if ValidPath(path) {
      JoinSplit(path);
      assert AllSegments(Split(path));
    }
    if keys :| keys != [] && AllSegments(keys) && path == Join(keys) {
      SplitJoin(keys);
      assert ValidSegment(keys[0]);
    }
  }
}
