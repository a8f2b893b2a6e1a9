/** The command template renderer: one pass over `{placeholder}` markers, each replaced by
    the shell-quoted value of its parameter. */
module Template {
  import opened Prelude
  import opened Shell

  datatype Parameter = Parameter(name: string, required: bool, default: Option<string>)

  datatype RenderError = Undeclared(undeclared: set<string>) | Missing(missing: seq<string>)

  /** The character class `\w` of Python's `re`: on ASCII the letters, digits and underscore. */
  ghost predicate IsWordClass(w: char -> bool) {
    forall c: char :: c < '\U{0080}' ==> (w(c) <==> IsLetter(c) || IsDigit(c))
  }

  // ----- the placeholder grammar ------------------------------------------------------

  datatype Part = Text(c: char) | Slot(name: string)

  function WordRun(w: char -> bool, s: string): (n: nat)
    ensures n <= |s|
    ensures forall i :: 0 <= i < n ==> w(s[i])
  {
    if s == "" || !w(s[0]) then 0 else 1 + WordRun(w, s[1..])
  }

  /** The placeholder that begins at the head of `s`, if one does. */
  function SlotAt(w: char -> bool, s: string): (name: Option<string>)
    ensures name.Some? ==> name.value != "" && (forall c :: c in name.value ==> w(c))
    ensures name.Some? ==> "{" + name.value + "}" <= s
  {
    if s == "" || s[0] != '{' then None
    else
      var n := WordRun(w, s[1..]);
      if n == 0 || |s| == n + 1 || s[n + 1] != '}' then None else Some(s[1..n + 1])
  }

  function Parse(w: char -> bool, s: string): seq<Part>
    decreases |s|
  {
    if s == "" then []
    else
      match SlotAt(w, s)
      case Some(name) => [Slot(name)] + Parse(w, s[|name| + 2..])
      case None => [Text(s[0])] + Parse(w, s[1..])
  }

  function Show(part: Part): string {
    match part
    case Text(c) => [c]
    case Slot(name) => "{" + name + "}"
  }

  function Unparse(parts: seq<Part>): string {
    if parts == [] then "" else Show(parts[0]) + Unparse(parts[1..])
  }

  lemma {:induction false} UnparseParse(w: char -> bool, s: string)
    ensures Unparse(Parse(w, s)) == s
    decreases |s|
  {
    hide SlotAt;
    if s != "" {
      var slot := SlotAt(w, s);
      if slot.Some? {
        var n := |slot.value| + 2;
        UnparseParse(w, s[n..]);
        assert s == s[..n] + s[n..] && s[..n] == "{" + slot.value + "}";
      } else {
        UnparseParse(w, s[1..]);
      }
    }
  }

  /** `s` begins with a placeholder. */
  predicate BeginsWith(w: char -> bool, s: string, name: string) {
    name != "" && (forall c :: c in name ==> w(c)) && "{" + name + "}" <= s
  }

  lemma {:induction false} WordRunIs(w: char -> bool, name: string, rest: string)
    requires (forall c :: c in name ==> w(c)) && rest != "" && !w(rest[0])
    ensures WordRun(w, name + rest) == |name|
  {
    if name == "" {
      assert name + rest == rest;
    } else {
      assert name[0] in name && (name + rest)[1..] == name[1..] + rest;
      WordRunIs(w, name[1..], rest);
    }
  }

  lemma SlotAtIff(w: char -> bool, s: string, name: string)
    requires !w('}')
    ensures SlotAt(w, s) == Some(name) <==> BeginsWith(w, s, name)
  {
    if BeginsWith(w, s, name) {
      var n, t := |name|, "{" + name + "}";
      assert s[..n + 2] == t;
      assert s[0] == t[0] == '{' && s[n + 1] == t[n + 1] == '}';
      assert s[1..n + 1] == t[1..n + 1] == name;
      assert s[1..] == name + s[n + 1..];
      WordRunIs(w, name, s[n + 1..]);
    }
  }

  /** The texts of these parts, one after the other, are `t`. */
  predicate AreText(parts: seq<Part>, t: string) {
    |parts| == |t| && forall i :: 0 <= i < |t| ==> parts[i] == Text(t[i])
  }

  lemma {:induction false} UnparseText(parts: seq<Part>, t: string)
    requires t == "" || (|parts| >= |t| && AreText(parts[..|t|], t))
    ensures t <= Unparse(parts)
  {
    if t != "" {
      assert parts[..|t|][0] == parts[0];
      assert forall i :: 0 <= i < |t| - 1 ==> parts[1..][i] == parts[..|t|][i + 1];
      UnparseText(parts[1..], t[1..]);
      assert t == [t[0]] + t[1..];
    }
  }

  lemma HeadIsNoPlaceholder(w: char -> bool, s: string, name: string)
    requires !w('}') && name != "" && (forall c :: c in name ==> w(c)) && |name| + 2 <= |Parse(w, s)|
    ensures !AreText(Parse(w, s)[..|name| + 2], "{" + name + "}")
  {
    var parts, t := Parse(w, s), "{" + name + "}";
    if AreText(parts[..|t|], t) {
      assert parts[0] == parts[..|t|][0] == Text(t[0]);
      UnparseText(parts, t);
      UnparseParse(w, s);
      SlotAtIff(w, s, name);
      hide SlotAt, Unparse;
    }
  }

  lemma ParseTail(w: char -> bool, s: string) returns (rest: string)
    requires s != ""
    ensures |rest| < |s| && Parse(w, s) != [] && Parse(w, s)[1..] == Parse(w, rest)
  {
    rest := if SlotAt(w, s).Some? then s[|SlotAt(w, s).value| + 2..] else s[1..];
    hide SlotAt;
  }

  /** No placeholder is left among the characters: wherever characters of the template spell one, it is one
      part. */
  lemma {:induction false} ParseFindsAll(w: char -> bool, s: string, i: nat, name: string)
    requires !w('}') && name != "" && (forall c :: c in name ==> w(c)) && i + |name| + 2 <= |Parse(w, s)|
    ensures !AreText(Parse(w, s)[i..i + |name| + 2], "{" + name + "}")
    decreases |s|
  {
    if i == 0 {
      HeadIsNoPlaceholder(w, s, name);
    } else {
      var parts, n := Parse(w, s), |name| + 2;
      var rest := ParseTail(w, s);
      hide AreText, Parse;
      ParseFindsAll(w, rest, i - 1, name);
      assert parts[i..i + n] == parts[1..][i - 1..i - 1 + n];
    }
  }

  function Slots(parts: seq<Part>): set<string> {
    set i | 0 <= i < |parts| && parts[i].Slot? :: parts[i].name
  }

  // ----- rendering ----------------------------------------------------------------------

  function Declared(parameters: seq<Parameter>): set<string> {
    set i | 0 <= i < |parameters| :: parameters[i].name
  }

  /** The defaults as a dict: the last declaration of a name counts. */
  function DefaultOf(parameters: seq<Parameter>, name: string): Option<string> {
    if parameters == [] then None
    else
      var last := parameters[|parameters| - 1];
      if last.name == name then last.default else DefaultOf(parameters[..|parameters| - 1], name)
  }

  function Lookup(parameters: seq<Parameter>, params: map<string, string>, name: string): Option<string> {
    if name in params then Some(params[name]) else DefaultOf(parameters, name)
  }

  predicate IsMissing(p: Parameter, found: set<string>, parameters: seq<Parameter>, params: map<string, string>) {
    p.required && p.name in found && Lookup(parameters, params, p.name).None?
  }

  function MissingAmong(ps: seq<Parameter>, found: set<string>, parameters: seq<Parameter>, params: map<string, string>)
    : seq<string>
  {
    if ps == [] then []
    else
      var last := ps[|ps| - 1];
      MissingAmong(ps[..|ps| - 1], found, parameters, params)
      + (if IsMissing(last, found, parameters, params) then [last.name] else [])
  }

  /** `_replace`: an optional placeholder without any value stays as it is. */
  function Replacement(parameters: seq<Parameter>, params: map<string, string>, name: string): string {
    match Lookup(parameters, params, name)
    case Some(value) => Quote(value)
    case None => Show(Slot(name))
  }

  function Substitute(parts: seq<Part>, parameters: seq<Parameter>, params: map<string, string>): string {
    if parts == [] then ""
    else
      (match parts[0]
       case Text(c) => [c]
       case Slot(name) => Replacement(parameters, params, name))
      + Substitute(parts[1..], parameters, params)
  }

  function Render(w: char -> bool, template: string, parameters: seq<Parameter>, params: map<string, string>)
    : Result<string, RenderError>
  {
    var parts := Parse(w, template);
    var found := Slots(parts);
    var missing := MissingAmong(parameters, found, parameters, params);
    if !(found <= Declared(parameters)) then Err(Undeclared(found - Declared(parameters)))
    else if missing != [] then Err(Missing(missing))
    else Ok(Substitute(parts, parameters, params))
  }

  lemma {:induction false} MissingNames(
    ps: seq<Parameter>, found: set<string>, parameters: seq<Parameter>, params: map<string, string>, name: string)
    ensures name in MissingAmong(ps, found, parameters, params)
            <==> exists i :: 0 <= i < |ps| && ps[i].name == name && IsMissing(ps[i], found, parameters, params)
  {
    hide IsMissing;
    if ps != [] {
      var n := |ps| - 1;
      MissingNames(ps[..n], found, parameters, params, name);
      assert ps == ps[..n] + [ps[n]];
      assert forall i :: 0 <= i < n ==> ps[..n][i] == ps[i];
    }
  }

  /** A template renders iff every placeholder is declared and every required parameter that it uses
      has a value or a default; a failure names exactly the offending parameters. */
  lemma RenderSucceedsIff(w: char -> bool, template: string, parameters: seq<Parameter>, params: map<string, string>)
    ensures var found, r := Slots(Parse(w, template)), Render(w, template, parameters, params);
            && (r.Ok? <==> found <= Declared(parameters)
                           && forall i :: 0 <= i < |parameters| ==> !IsMissing(parameters[i], found, parameters, params))
            && (r.Err? && r.error.Undeclared? ==> r.error.undeclared == found - Declared(parameters) != {})
            && (r.Err? && r.error.Missing? ==>
                  forall name :: name in r.error.missing
                    <==> exists i :: 0 <= i < |parameters| && parameters[i].name == name && IsMissing(parameters[i], found, parameters, params))
  {
    var found := Slots(Parse(w, template));
    hide IsMissing, Slots, Parse, Substitute, Declared;
    forall name
      ensures name in MissingAmong(parameters, found, parameters, params)
              <==> exists i :: 0 <= i < |parameters| && parameters[i].name == name && IsMissing(parameters[i], found, parameters, params)
    {
      MissingNames(parameters, found, parameters, params, name);
    }
    var missing := MissingAmong(parameters, found, parameters, params);
    assert missing != [] ==> missing[0] in missing;
    forall i | 0 <= i < |parameters| && IsMissing(parameters[i], found, parameters, params) ensures missing != [] {
      assert parameters[i].name in missing;
    }
    if !(found <= Declared(parameters)) {
      var x :| x in found && x !in Declared(parameters);
      assert x in found - Declared(parameters);
    }
  }

  // ----- which value stands at a placeholder ------------------------------------------------

  /** The last declaration of a name. */
  predicate LastDeclares(parameters: seq<Parameter>, k: int, name: string) {
    0 <= k < |parameters| && parameters[k].name == name && forall j :: k < j < |parameters| ==> parameters[j].name != name
  }

  /** A supplied value, if there is one; else the default of the last declaration, if that has one. */
  ghost predicate StandsAt(parameters: seq<Parameter>, params: map<string, string>, name: string, value: Option<string>) {
    if name in params then value == Some(params[name])
    else
      && (forall k :: LastDeclares(parameters, k, name) ==> value == parameters[k].default)
      && ((forall k :: 0 <= k < |parameters| ==> parameters[k].name != name) ==> value == None)
  }

  lemma {:induction false} DefaultIsLast(parameters: seq<Parameter>, name: string)
    ensures forall k :: LastDeclares(parameters, k, name) ==> DefaultOf(parameters, name) == parameters[k].default
    ensures (forall k :: 0 <= k < |parameters| ==> parameters[k].name != name) ==> DefaultOf(parameters, name) == None
  {
    if parameters != [] {
      var n := |parameters| - 1;
      DefaultIsLast(parameters[..n], name);
      forall k | LastDeclares(parameters, k, name) ensures DefaultOf(parameters, name) == parameters[k].default {
        if k < n {
          assert parameters[n].name != name && LastDeclares(parameters[..n], k, name);
        }
      }
    }
  }

  lemma LookupIs(parameters: seq<Parameter>, params: map<string, string>, name: string)
    ensures StandsAt(parameters, params, name, Lookup(parameters, params, name))
  {
    DefaultIsLast(parameters, name);
    hide DefaultOf;
  }

  /** The text of a part: a character is itself, a placeholder the quoted value that stands there, or its
      own text if none does. */
  ghost predicate Spells(part: Part, parameters: seq<Parameter>, params: map<string, string>, text: string) {
    match part
    case Text(c) => text == [c]
    case Slot(name) =>
      forall value :: StandsAt(parameters, params, name, value) ==>
        text == match value case Some(v) => Quote(v) case None => "{" + name + "}"
  }

  function Joint(texts: seq<string>): string {
    if texts == [] then "" else texts[0] + Joint(texts[1..])
  }

  /** A rendering is its template with every placeholder so spelled out, part by part. */
  lemma {:induction false} SubstituteSpells(parts: seq<Part>, parameters: seq<Parameter>, params: map<string, string>)
    returns (texts: seq<string>)
    ensures |texts| == |parts| && Joint(texts) == Substitute(parts, parameters, params)
    ensures forall i :: 0 <= i < |parts| ==> Spells(parts[i], parameters, params, texts[i])
  {
    if parts == [] {
      texts := [];
    } else {
      var rest := SubstituteSpells(parts[1..], parameters, params);
      var head := match parts[0] case Text(c) => [c] case Slot(name) => Replacement(parameters, params, name);
      texts := [head] + rest;
      PartSpells(parts[0], parameters, params, head);
      hide Spells, Replacement;
    }
  }

  lemma PartSpells(part: Part, parameters: seq<Parameter>, params: map<string, string>, text: string)
    requires text == match part case Text(c) => [c] case Slot(name) => Replacement(parameters, params, name)
    ensures Spells(part, parameters, params, text)
  {
    if part.Slot? {
      LookupIs(parameters, params, part.name);
      forall value | StandsAt(parameters, params, part.name, value) ensures value == Lookup(parameters, params, part.name) {
        OneStands(parameters, params, part.name, value, Lookup(parameters, params, part.name));
      }
    }
    hide Quote, Lookup;
  }

  lemma OneStands(parameters: seq<Parameter>, params: map<string, string>, name: string, v: Option<string>, w: Option<string>)
    requires StandsAt(parameters, params, name, v) && StandsAt(parameters, params, name, w)
    ensures v == w
  {
    if name !in params && exists k :: 0 <= k < |parameters| && parameters[k].name == name {
      var k := LastOf(parameters, name);
    }
  }

  lemma {:induction false} LastOf(parameters: seq<Parameter>, name: string) returns (k: nat)
    requires exists i :: 0 <= i < |parameters| && parameters[i].name == name
    ensures LastDeclares(parameters, k, name)
  {
    var n := |parameters| - 1;
    if parameters[n].name == name {
      k := n;
    } else {
      var i :| 0 <= i < |parameters| && parameters[i].name == name;
      assert parameters[..n][i].name == name;
      k := LastOf(parameters[..n], name);
    }
  }

  /** What a rendering is, when it succeeds: its parts spelled out one after the other. */
  lemma RenderSpells(w: char -> bool, template: string, parameters: seq<Parameter>, params: map<string, string>)
    returns (texts: seq<string>)
    requires Render(w, template, parameters, params).Ok?
    ensures |texts| == |Parse(w, template)| && Render(w, template, parameters, params) == Ok(Joint(texts))
    ensures forall i :: 0 <= i < |texts| ==> Spells(Parse(w, template)[i], parameters, params, texts[i])
  {
    texts := SubstituteSpells(Parse(w, template), parameters, params);
    hide Spells, Parse, Substitute;
  }

  /** A parameter is missing iff it is required and used, and nothing stands at its placeholder. */
  lemma MissingIff(p: Parameter, found: set<string>, parameters: seq<Parameter>, params: map<string, string>)
    ensures IsMissing(p, found, parameters, params)
            <==> p.required && p.name in found && StandsAt(parameters, params, p.name, None)
  {
    LookupIs(parameters, params, p.name);
    if StandsAt(parameters, params, p.name, None) {
      OneStands(parameters, params, p.name, None, Lookup(parameters, params, p.name));
    }
    hide Lookup, StandsAt;
  }

  /** Defaults of supplied names do not matter: two declaration lists that differ in nothing else render
      alike, errors included. */
  lemma SuppliedBeatsDefault(w: char -> bool, template: string, ps: seq<Parameter>, qs: seq<Parameter>, params: map<string, string>)
    requires |ps| == |qs|
    requires forall i :: 0 <= i < |ps| ==> ps[i].name == qs[i].name && ps[i].required == qs[i].required
    requires forall i :: 0 <= i < |ps| && ps[i].name !in params ==> ps[i].default == qs[i].default
    ensures Render(w, template, ps, params) == Render(w, template, qs, params)
  {
    var parts := Parse(w, template);
    var found := Slots(parts);
    assert Declared(ps) == Declared(qs) by {
      forall i | 0 <= i < |ps| ensures ps[i].name in Declared(qs) && qs[i].name in Declared(ps) {
        assert qs[i].name == ps[i].name;
      }
    }
    forall name ensures Lookup(ps, params, name) == Lookup(qs, params, name) {
      if name !in params { SameDefaults(ps, qs, params, name); }
    }
    hide Lookup, Parse, Slots, Declared;
    SameMissing(ps, qs, found, ps, qs, params);
    SameText(parts, ps, qs, params);
  }

  lemma {:induction false} SameDefaults(ps: seq<Parameter>, qs: seq<Parameter>, params: map<string, string>, name: string)
    requires |ps| == |qs| && name !in params
    requires forall i :: 0 <= i < |ps| ==> ps[i].name == qs[i].name
    requires forall i :: 0 <= i < |ps| && ps[i].name !in params ==> ps[i].default == qs[i].default
    ensures DefaultOf(ps, name) == DefaultOf(qs, name)
  {
    if ps != [] {
      var n := |ps| - 1;
      SameDefaults(ps[..n], qs[..n], params, name);
      assert ps[n].name == qs[n].name;
    }
  }

  lemma {:induction false} SameMissing(
    a: seq<Parameter>, b: seq<Parameter>, found: set<string>, ps: seq<Parameter>, qs: seq<Parameter>, params: map<string, string>)
    requires |a| == |b| && forall i :: 0 <= i < |a| ==> a[i].name == b[i].name && a[i].required == b[i].required
    requires forall name :: Lookup(ps, params, name) == Lookup(qs, params, name)
    ensures MissingAmong(a, found, ps, params) == MissingAmong(b, found, qs, params)
  {
    hide Lookup;
    if a != [] {
      var n := |a| - 1;
      SameMissing(a[..n], b[..n], found, ps, qs, params);
      assert a[n].name == b[n].name;
    }
  }

  lemma {:induction false} SameText(parts: seq<Part>, ps: seq<Parameter>, qs: seq<Parameter>, params: map<string, string>)
    requires forall name :: Lookup(ps, params, name) == Lookup(qs, params, name)
    ensures Substitute(parts, ps, params) == Substitute(parts, qs, params)
  {
    hide Lookup;
    if parts != [] {
      SameText(parts[1..], ps, qs, params);
    }
  }

  method RenderCommand(w: char -> bool, template: string, parameters: seq<Parameter>, params: map<string, string>)
    returns (r: Result<string, RenderError>)
    ensures r == Render(w, template, parameters, params)
  {
    var declared := Declared(parameters);
    var parts := Parse(w, template);
    var found := Slots(parts);
    var undeclared := found - declared;
    if undeclared != {} {
      return Err(Undeclared(undeclared));
    }
    forall x | x in found ensures x in declared {
      assert x !in undeclared;
    }
    var missing := [];
    for i := 0 to |parameters|
      invariant missing == MissingAmong(parameters[..i], found, parameters, params)
    {
      assert parameters[..i + 1][..i] == parameters[..i];
      var p := parameters[i];
      var hasDefault := DefaultOf(parameters, p.name).Some?;
      if p.name in found && p.name !in params && !hasDefault && p.required {
        missing := missing + [p.name];
      }
    }
    assert parameters[..|parameters|] == parameters;
    if missing != [] {
      return Err(Missing(missing));
    }
    r := Ok(Substitute(parts, parameters, params));
  }

  // ----- what a template means to the shell ------------------------------------------------

  /** What stands at a placeholder: a value, or, without one, the placeholder's own text. */
  datatype Filling = Value(text: string) | Kept(text: string)

  function Meaning(parameters: seq<Parameter>, params: map<string, string>, name: string): Filling {
    match Lookup(parameters, params, name)
    case Some(value) => Value(value)
    case None => Kept(Show(Slot(name)))
  }

  /** A value joins the current word, bare if it needs no quotes and quoted otherwise; a kept text
      joins it as bare characters. */
  function Fill(l: Lexer, f: Filling): Lexer {
    match f
    case Value(text) => Insert(l, text)
    case Kept(text) =>
      var s := Settle(l);
      WithWord(s, Plain, Piece(s.data.word.atoms + Mapped(ToBare, text), s.data.word.quoted))
  }

  /** Read a template whose placeholders are pieces of words. */
  function ScanParts(l: Lexer, parts: seq<Part>, meaning: string -> Filling): Lexer
    decreases |parts|
  {
    if parts == [] then l
    else
      match parts[0]
      case Text(c) => ScanParts(Step(l, c), parts[1..], meaning)
      case Slot(name) => ScanParts(Fill(l, meaning(name)), parts[1..], meaning)
  }

  predicate InBraces(ctx: Context) { ctx.In? && ctx.kind.BraceWord? }

  /** Every placeholder stands at an unquoted position, and those that may stay without a value do not
      stand in the word of `${...}`, which their own `}` would end: a property of the template alone. */
  predicate AllUnquoted(k: Control, parts: seq<Part>, optional: set<string>)
    decreases |parts|
  {
    parts == []
    || match parts[0]
       case Text(c) => AllUnquoted(NextMove(k, c).control, parts[1..], optional)
       case Slot(name) =>
         && IsPlainPosition(k.mode)
         && (name in optional ==> !InBraces(k.context))
         && AllUnquoted(Control(Plain, k.context), parts[1..], optional)
  }

  /** The names that a rendering leaves without a value. */
  predicate KeepsOnly(optional: set<string>, parts: seq<Part>, meaning: string -> Filling) {
    forall i :: 0 <= i < |parts| && parts[i].Slot? && meaning(parts[i].name).Kept? ==> parts[i].name in optional
  }

  lemma FillControl(l: Lexer, f: Filling)
    requires IsPlainPosition(l.control.mode)
    ensures Fill(l, f).control == Control(Plain, l.control.context)
  {
  }

  /** An unresolved placeholder is ordinary text, except in the word of `${...}`. */
  lemma ScanSlotText(w: char -> bool, l: Lexer, name: string)
    requires IsWordClass(w) && (forall c :: c in name ==> w(c))
    requires IsPlainPosition(l.control.mode) && !InBraces(l.control.context)
    ensures Scan(l, Show(Slot(name))) == Fill(l, Kept(Show(Slot(name))))
  {
    var text := Show(Slot(name));
    assert forall c :: c in text ==> IsOrdinary(c) by {
      forall c | c in text ensures IsOrdinary(c) {
        assert c == '{' || c == '}' || c in name;
      }
    }
    ScanOrdinary(l, text);
  }

  predicate IsOrdinary(c: char) {
    IsSafe(c) || c == '{' || c == '}' || c >= '\U{0080}'
  }

  lemma UnquotedOrdinary(mode: Mode, ctx: Context, c: char)
    requires IsOrdinary(c) && !InBraces(ctx)
    ensures Unquoted(mode, ctx, c) == Put(Plain, ctx, Bare(c))
  {
  }

  lemma StepOrdinary(l: Lexer, c: char)
    requires IsPlainPosition(l.control.mode) && !InBraces(l.control.context) && IsOrdinary(c)
    ensures Step(l, c) == WithWord(Settle(l), Plain, Push(Settle(l).data.word, Bare(c)))
  {
    UnquotedOrdinary(if l.control.mode.Op? then Between else if l.control.mode.BracePattern? then Plain else l.control.mode, l.control.context, c);
    hide Unquoted;
  }

  lemma {:induction false} ScanOrdinary(l: Lexer, s: string)
    requires IsPlainPosition(l.control.mode) && !InBraces(l.control.context)
    requires s != "" && forall c :: c in s ==> IsOrdinary(c)
    ensures Scan(l, s) == Fill(l, Kept(s))
    decreases |s|
  {
    hide Step, IsOrdinary, Mapped;
    var c, rest := s[0], s[1..];
    assert s == [c] + rest && c in s && forall d :: d in rest ==> d in s;
    StepOrdinary(l, c);
    var next := WithWord(Settle(l), Plain, Push(Settle(l).data.word, Bare(c)));
    AppendCons(Settle(l).data.word.atoms, ToBare, c, rest);
    SettlePlain(next);
    if rest == "" {
      assert next.data.word.atoms + Mapped(ToBare, rest) == next.data.word.atoms;
    } else {
      ScanOrdinary(next, rest);
    }
  }

  /** The rendered text reads as the template does with literal placeholders. */
  lemma {:induction false} ScanSubstitute(
    w: char -> bool, l: Lexer, parts: seq<Part>, optional: set<string>, parameters: seq<Parameter>, params: map<string, string>)
    requires IsWordClass(w) && AllUnquoted(l.control, parts, optional)
    requires KeepsOnly(optional, parts, name => Meaning(parameters, params, name))
    requires forall i :: 0 <= i < |parts| && parts[i].Slot? ==> forall c :: c in parts[i].name ==> w(c)
    ensures Scan(l, Substitute(parts, parameters, params))
            == ScanParts(l, parts, name => Meaning(parameters, params, name))
    decreases |parts|
  {
    hide NextMove, Do, Insert, Quote, IsWordClass, Settle, Mapped, IsPlainPosition, InBraces;
    if parts != [] {
      var rest := Substitute(parts[1..], parameters, params);
      match parts[0]
      case Text(c) =>
        ScanOne(l, c);
        ScanAppend(l, [c], rest);
        ScanSubstitute(w, Step(l, c), parts[1..], optional, parameters, params);
      case Slot(name) =>
        var text := Replacement(parameters, params, name);
        ScanAppend(l, text, rest);
        if Lookup(parameters, params, name).Some? {
          ScanQuoted(l, Lookup(parameters, params, name).value);
        } else {
          assert parts[0].name in optional;
          ScanSlotText(w, l, name);
        }
        FillControl(l, Meaning(parameters, params, name));
        ScanSubstitute(w, Fill(l, Meaning(parameters, params, name)), parts[1..], optional, parameters, params);
    }
  }

  lemma {:induction false} ParsedNames(w: char -> bool, s: string)
    ensures forall i :: 0 <= i < |Parse(w, s)| && Parse(w, s)[i].Slot? ==> forall c :: c in Parse(w, s)[i].name ==> w(c)
    decreases |s|
  {
    hide SlotAt;
    if s != "" {
      match SlotAt(w, s)
      case Some(name) => ParsedNames(w, s[|name| + 2..]);
      case None => ParsedNames(w, s[1..]);
    }
  }

  // ----- placeholders that never get a value ------------------------------------------------

  /** Which names get no value in the renderings considered, and which others may go without one.  To the
      renderer `${HOME}` holds a placeholder too: declared, optional and without a value it stays. */
  datatype Use = Use(kept: set<string>, optional: set<string>)

  function ToText(c: char): Part { Text(c) }

  /** Kept placeholders are spelled out. */
  function Spelled(parts: seq<Part>, kept: set<string>): seq<Part> {
    if parts == [] then []
    else
      (if parts[0].Slot? && parts[0].name in kept then Mapped(ToText, Show(parts[0])) else [parts[0]]) + Spelled(parts[1..], kept)
  }

  function Parts(w: char -> bool, template: string, use: Use): seq<Part> { Spelled(Parse(w, template), use.kept) }

  /** The parameters and values are used so. */
  predicate Obeys(use: Use, parts: seq<Part>, parameters: seq<Parameter>, params: map<string, string>) {
    && (forall name :: name in use.kept ==> Lookup(parameters, params, name).None?)
    && KeepsOnly(use.optional, parts, name => Meaning(parameters, params, name))
  }

  lemma {:induction false} SubstituteAppend(a: seq<Part>, b: seq<Part>, parameters: seq<Parameter>, params: map<string, string>)
    ensures Substitute(a + b, parameters, params) == Substitute(a, parameters, params) + Substitute(b, parameters, params)
  {
    hide Replacement;
    if a == [] {
      assert a + b == b;
    } else {
      assert (a + b)[1..] == a[1..] + b;
      SubstituteAppend(a[1..], b, parameters, params);
    }
  }

  lemma {:induction false} SubstituteText(s: string, parameters: seq<Parameter>, params: map<string, string>)
    ensures Substitute(Mapped(ToText, s), parameters, params) == s
  {
    if s != "" {
      assert Mapped(ToText, s)[1..] == Mapped(ToText, s[1..]);
      SubstituteText(s[1..], parameters, params);
    }
  }

  lemma {:induction false} SubstituteSpelled(parts: seq<Part>, kept: set<string>, parameters: seq<Parameter>, params: map<string, string>)
    requires forall name :: name in kept ==> Lookup(parameters, params, name).None?
    ensures Substitute(Spelled(parts, kept), parameters, params) == Substitute(parts, parameters, params)
  {
    hide Mapped, Lookup;
    if parts != [] {
      SubstituteSpelled(parts[1..], kept, parameters, params);
      if parts[0].Slot? && parts[0].name in kept {
        SubstituteText(Show(parts[0]), parameters, params);
        SubstituteAppend(Mapped(ToText, Show(parts[0])), Spelled(parts[1..], kept), parameters, params);
      } else {
        assert ([parts[0]] + Spelled(parts[1..], kept))[1..] == Spelled(parts[1..], kept);
      }
    }
  }

  /** Spelling out leaves exactly the other placeholders. */
  lemma {:induction false} SpelledSlots(parts: seq<Part>, kept: set<string>)
    ensures Slots(Spelled(parts, kept)) == Slots(parts) - kept
  {
    if parts != [] {
      SpelledSlots(parts[1..], kept);
      var head := if parts[0].Slot? && parts[0].name in kept then Mapped(ToText, Show(parts[0])) else [parts[0]];
      SlotsAppend(head, Spelled(parts[1..], kept));
      SlotsAppend([parts[0]], parts[1..]);
      assert parts == [parts[0]] + parts[1..];
      SlotsOne(parts[0]);
      assert parts[0].Slot? && parts[0].name in kept ==> Slots(head) == {};
      hide Slots, Mapped;
    }
  }

  lemma SlotsOne(part: Part)
    ensures Slots([part]) == if part.Slot? then {part.name} else {}
  {
    assert part == [part][0];
  }

  lemma SlotsAppend(a: seq<Part>, b: seq<Part>)
    ensures Slots(a + b) == Slots(a) + Slots(b)
  {
    forall i | 0 <= i < |a| && a[i].Slot? ensures a[i].name in Slots(a + b) {
      assert (a + b)[i] == a[i];
    }
    forall i | 0 <= i < |b| && b[i].Slot? ensures b[i].name in Slots(a + b) {
      assert (a + b)[|a| + i] == b[i];
    }
  }

  /** A supplied value stands as that value; a name that was not supplied stands as the default of its last
      declaration, or as itself. */
  lemma MeaningIs(parameters: seq<Parameter>, params: map<string, string>, name: string)
    ensures name in params ==> Meaning(parameters, params, name) == Value(params[name])
    ensures forall k :: name !in params && LastDeclares(parameters, k, name) ==>
              Meaning(parameters, params, name)
              == match parameters[k].default case Some(v) => Value(v) case None => Kept("{" + name + "}")
  {
    LookupIs(parameters, params, name);
    hide Lookup;
  }

  /** If every placeholder is unquoted, in the command itself or in an expansion, the tokens of the
      rendered text are those of the template with each placeholder replaced by its value, character for
      character: as quoted characters if the value needs quotes, so that its quotes, blanks, operators or
      `{x}` never act, and as bare ones if not. */
  lemma RenderKeepsWords(w: char -> bool, template: string, use: Use, parameters: seq<Parameter>, params: map<string, string>)
    requires var parts := Parts(w, template, use);
             IsWordClass(w) && AllUnquoted(START.control, parts, use.optional) && Obeys(use, parts, parameters, params)
    requires Render(w, template, parameters, params).Ok?
    ensures Tokens(Render(w, template, parameters, params).value)
            == Finish(ScanParts(START, Parts(w, template, use), name => Meaning(parameters, params, name)))
  {
    var parts := Parts(w, template, use);
    SubstituteSpelled(Parse(w, template), use.kept, parameters, params);
    SpelledNames(w, template, use);
    hide Scan, ScanParts, Finish, Parse, KeepsOnly, AllUnquoted, Spelled;
    ScanSubstitute(w, START, parts, use.optional, parameters, params);
  }

  lemma SpelledNames(w: char -> bool, template: string, use: Use)
    ensures forall i :: var parts := Parts(w, template, use);
              0 <= i < |parts| && parts[i].Slot? ==> forall c :: c in parts[i].name ==> w(c)
  {
    ParsedNames(w, template);
    var all, parts := Parse(w, template), Parts(w, template, use);
    SpelledSlots(all, use.kept);
    hide Parse, Spelled;
    forall i | 0 <= i < |parts| && parts[i].Slot? ensures forall c :: c in parts[i].name ==> w(c) {
      assert parts[i].name in Slots(parts);
      var j :| 0 <= j < |all| && all[j].Slot? && all[j].name == parts[i].name;
    }
  }

  // ----- inline steps -------------------------------------------------------------------------

  lemma SlotsEmpty(parts: seq<Part>)
    ensures Slots(parts) == {} <==> forall i :: 0 <= i < |parts| ==> parts[i].Text?
  {
    forall i | 0 <= i < |parts| && parts[i].Slot? ensures parts[i].name in Slots(parts) {
    }
  }

  lemma {:induction false} NoSlots(parts: seq<Part>, parameters: seq<Parameter>, params: map<string, string>)
    requires forall i :: 0 <= i < |parts| ==> parts[i].Text?
    ensures Substitute(parts, parameters, params) == Unparse(parts)
  {
    if parts != [] {
      NoSlots(parts[1..], parameters, params);
    }
  }

  /** An inline step, rendered without declared parameters, resolves iff it has no placeholder,
      and then it is returned unchanged. */
  lemma InlineUnchanged(w: char -> bool, template: string, params: map<string, string>)
    ensures Render(w, template, [], params).Ok? <==> Slots(Parse(w, template)) == {}
    ensures Render(w, template, [], params).Ok? ==> Render(w, template, [], params) == Ok(template)
  {
    SlotsEmpty(Parse(w, template));
    if Slots(Parse(w, template)) == {} {
      NoSlots(Parse(w, template), [], params);
      UnparseParse(w, template);
    }
  }
}
