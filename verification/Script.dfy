/** The script pipeline: steps are resolved into commands, then interpreted one after the other
    over one remote session. */
module Script {
  import opened Prelude
  import opened Output
  import Names
  import opened PackContent
  import Template
  import Utf8

  // ----- stored commands -------------------------------------------------------------------

  /** A row of the command table; a pack writes its parameters unchecked. */
  datatype StoredCommand = StoredCommand(command: string, parameters: Json)

  /** `parameter_from_json`: None stands for any exception. */
  function ReadParameter(text: Json -> string, j: Json): Option<Template.Parameter> {
    match j
    case Str(name) => Some(Template.Parameter(name, true, None))
    case Obj(fields) =>
      var name, required := GetOr(fields, "name", Null), GetOr(fields, "required", Bool(true));
      var description, default := GetOr(fields, "description", Null), GetOr(fields, "default", Null);
      if name.Str? && GetOr(fields, "type", Str("string")) in {Str("string"), Str("integer"), Str("boolean")}
         && required.Bool? && (description.Null? || description.Str?)
      then Some(Template.Parameter(name.s, required.b, if default.Null? then None else Some(text(default))))
      else None
    case _ => None
  }

  function ReadAll(text: Json -> string, list: seq<Json>): Option<seq<Template.Parameter>> {
    if list == [] then Some([])
    else
      match (ReadParameter(text, list[0]), ReadAll(text, list[1..]))
      case (Some(p), Some(rest)) => Some([p] + rest)
      case _ => None
  }

  /** `get_template` over the parameters of a row. */
  function ReadParameters(text: Json -> string, j: Json): Option<seq<Template.Parameter>> {
    if !Truthy(j) then Some([])
    else
      match AsList(j)
      case None => None
      case Some(list) => ReadAll(text, list)
  }

  // ----- resolving -------------------------------------------------------------------

  datatype StepError = NoCommand | NoCommandId | NotFound(id: nat) | NotRendered(cause: Template.RenderError) | UnknownType(kind: Json)

  /** What resolution consults: the class of word characters, `str()`, the UUID parser, the stored
      commands, and the text of each error. */
  datatype Catalog = Catalog(
    word: char -> bool, text: Json -> string, parse: string -> Option<nat>, commands: map<nat, StoredCommand>,
    describe: StepError -> string)

  datatype ResolvedStep = ResolvedStep(title: Json, command: string, onFailure: Json, error: Option<string>)

  function FromRender(r: Result<string, Template.RenderError>): Result<string, StepError> {
    match r
    case Ok(text) => Ok(text)
    case Err(e) => Err(NotRendered(e))
  }

  /** `{**globals, **params}`, each value as text. */
  function Merged(cat: Catalog, globals: map<string, Json>, params: Fields): map<string, string> {
    var own := set i | 0 <= i < |params| :: params[i].0;
    map name | name in globals.Keys + own ::
      cat.text(match Get(params, name) case Some(value) => value case None => if name in globals then globals[name] else Null)
  }

  /** The reference of a command step, when it has one, raises: the id is no UUID, or the stored command
      cannot be read, or the parameters of the step are not an object. */
  predicate MalformedReference(cat: Catalog, step: Fields) {
    match cat.parse(cat.text(GetOr(step, "command_id", Null)))
    case None => true
    case Some(id) =>
      && id in cat.commands
      && (ReadParameters(cat.text, cat.commands[id].parameters).None? || !GetOr(step, "params", Obj([])).Obj?)
  }

  /** What `_resolve_step` neither returns nor catches: KeyError, TypeError, ValueError. */
  predicate Malformed(cat: Catalog, step: Json) {
    || !step.Obj?
    || Get(step.fields, "label").None?
    || var command := GetOr(step.fields, "command", Null);
       match Get(step.fields, "type")
       case None => true
       case Some(kind) =>
         || (kind == Str("inline") && Truthy(command) && !command.Str?)
         || (kind == Str("command") && Truthy(GetOr(step.fields, "command_id", Null)) && MalformedReference(cat, step.fields))
  }

  function Command(cat: Catalog, step: Fields, globals: map<string, Json>): Result<string, StepError>
    requires !Malformed(cat, Obj(step))
  {
    var kind, command := Get(step, "type").value, GetOr(step, "command", Null);
    if kind == Str("inline") then
      if !Truthy(command) then Err(NoCommand)
      else FromRender(Template.Render(cat.word, command.s, [], Merged(cat, globals, [])))
    else if kind == Str("command") then
      if !Truthy(GetOr(step, "command_id", Null)) then Err(NoCommandId)
      else
        var id := cat.parse(cat.text(GetOr(step, "command_id", Null))).value;
        if id !in cat.commands then Err(NotFound(id))
        else
          var row := cat.commands[id];
          FromRender(Template.Render(cat.word, row.command, ReadParameters(cat.text, row.parameters).value,
                                     Merged(cat, globals, GetOr(step, "params", Obj([])).fields)))
    else Err(UnknownType(kind))
  }

  /** `_resolve_step`: None stands for an exception. */
  function ResolveStep(cat: Catalog, step: Json, globals: map<string, Json>): Option<ResolvedStep> {
    if Malformed(cat, step) then None
    else
      var title, onFailure := Get(step.fields, "label").value, GetOr(step.fields, "on_failure", Str("stop"));
      match Command(cat, step.fields, globals)
      case Ok(command) => Some(ResolvedStep(title, command, onFailure, None))
      case Err(e) => Some(ResolvedStep(title, "", onFailure, Some(cat.describe(e))))
  }

  /** An inline step resolves iff it has a command without placeholders, whatever the parameters,
      and its command is then returned unchanged. */
  lemma InlineStepUnchanged(cat: Catalog, step: Fields, globals: map<string, Json>)
    requires Get(step, "label").Some? && Get(step, "type") == Some(Str("inline"))
    ensures var r, command := ResolveStep(cat, Obj(step), globals), GetOr(step, "command", Null);
            && (r.None? <==> Truthy(command) && !command.Str?)
            && (r.Some? ==>
                  && (r.value.error.None? <==>
                        Truthy(command) && Template.Slots(Template.Parse(cat.word, command.s)) == {})
                  && (r.value.error.None? ==> r.value.command == command.s)
                  && (r.value.error.Some? ==> r.value.command == ""))
  {
    var command := GetOr(step, "command", Null);
    if Truthy(command) && command.Str? {
      Template.InlineUnchanged(cat.word, command.s, Merged(cat, globals, []));
    }
    hide Get, Template.Render, Template.Parse, Merged;
  }

  /** The parameters of a step override the global ones of the same name. */
  lemma StepParametersWin(cat: Catalog, step: Fields, g: map<string, Json>, h: map<string, Json>)
    requires Get(step, "type") == Some(Str("command")) && GetOr(step, "params", Obj([])).Obj?
    requires var params := GetOr(step, "params", Obj([])).fields;
             forall name :: Get(params, name).None? ==> (name in g <==> name in h) && (name in g && name in h ==> g[name] == h[name])
    ensures ResolveStep(cat, Obj(step), g) == ResolveStep(cat, Obj(step), h)
  {
    MergedWins(cat, GetOr(step, "params", Obj([])).fields, g, h);
    hide Get, Merged, Template.Render, ReadParameters;
  }

  /** The dictionary that a command is rendered with: the names of both, the step's value before the global
      one, each as text.  `{**globals, **params}` for an object `params` with distinct keys. */
  ghost predicate IsMerged(cat: Catalog, globals: map<string, Json>, params: Fields, merged: map<string, string>) {
    && (forall name :: name in merged <==> name in globals || exists v :: (name, v) in params)
    && (forall name, v :: (name, v) in params ==> merged[name] == cat.text(v))
    && (forall name :: name in globals && (forall v :: (name, v) !in params) ==> merged[name] == cat.text(globals[name]))
  }

  lemma MergedIs(cat: Catalog, globals: map<string, Json>, params: Fields)
    requires DistinctKeys(params)
    ensures IsMerged(cat, globals, params, Merged(cat, globals, params))
  {
    forall name ensures Get(params, name).Some? <==> exists v :: (name, v) in params {
      GetIff(params, name);
    }
    forall name, v | (name, v) in params ensures Get(params, name) == Some(v) {
      GetIff(params, name);
    }
    forall name ensures name in Merged(cat, globals, params) <==> name in globals || Get(params, name).Some? {
      OwnNames(params, name);
    }
    hide Get;
  }

  lemma OneMerged(cat: Catalog, globals: map<string, Json>, params: Fields, m: map<string, string>, n: map<string, string>)
    requires IsMerged(cat, globals, params, m) && IsMerged(cat, globals, params, n)
    ensures m == n
  {
    forall name | name in m ensures name in n && m[name] == n[name] {
      if v :| (name, v) in params {
      }
    }
  }

  /** What a command step with a stored command resolves to: that command's text, rendered with its stored
      parameters and the merged dictionary, under the label of the step. */
  lemma CommandStepRenders(cat: Catalog, step: Fields, globals: map<string, Json>, id: nat, own: Fields, merged: map<string, string>)
    requires DistinctKeys(step) && DistinctKeys(own) && !Malformed(cat, Obj(step))
    requires ("type", Str("command")) in step
    requires exists v :: ("command_id", v) in step && Truthy(v) && cat.parse(cat.text(v)) == Some(id)
    requires id in cat.commands
    requires if exists v :: ("params", v) in step then ("params", Obj(own)) in step else own == []
    requires IsMerged(cat, globals, own, merged)
    ensures var row := cat.commands[id];
            && ReadParameters(cat.text, row.parameters).Some?
            && var r := ResolveStep(cat, Obj(step), globals);
               && r.Some? && ("label", r.value.title) in step
               && match Template.Render(cat.word, row.command, ReadParameters(cat.text, row.parameters).value, merged)
                  case Ok(text) => r.value.command == text && r.value.error == None
                  case Err(e) => r.value.command == "" && r.value.error == Some(cat.describe(NotRendered(e)))
  {
    GetIff(step, "type");
    GetIff(step, "command_id");
    GetIff(step, "params");
    GetIff(step, "label");
    MergedIs(cat, globals, own);
    OneMerged(cat, globals, own, merged, Merged(cat, globals, own));
    hide Get, Merged, IsMerged, Template.Render, ReadParameters, DistinctKeys, Truthy;
  }

  /** A step stops the script when it fails, unless it says otherwise. */
  lemma FailurePolicy(cat: Catalog, step: Fields, globals: map<string, Json>)
    requires DistinctKeys(step) && ResolveStep(cat, Obj(step), globals).Some?
    ensures var policy := ResolveStep(cat, Obj(step), globals).value.onFailure;
            FieldIs(step, "on_failure", Str("stop"), policy)
  {
    GetIff(step, "on_failure");
    hide Get, Malformed, Command, DistinctKeys;
  }

  /** What a stored parameter is read as: its name, required unless it says otherwise, with a default
      unless that is null; and which objects are refused. */
  lemma ReadParameterIff(text: Json -> string, fields: Fields, p: Template.Parameter)
    requires DistinctKeys(fields)
    ensures ReadParameter(text, Obj(fields)) == Some(p)
            <==> && ("name", Str(p.name)) in fields
                 && (exists kind :: FieldIs(fields, "type", Str("string"), kind) && kind in {Str("string"), Str("integer"), Str("boolean")})
                 && FieldIs(fields, "required", Bool(true), Bool(p.required))
                 && (exists d :: FieldIs(fields, "description", Null, d) && (d.Null? || d.Str?))
                 && (exists v :: FieldIs(fields, "default", Null, v) && p.default == if v.Null? then None else Some(text(v)))
  {
    FieldIff(fields, "name", Null);
    FieldIff(fields, "type", Str("string"));
    FieldIff(fields, "required", Bool(true));
    FieldIff(fields, "description", Null);
    FieldIff(fields, "default", Null);
    assert FieldIs(fields, "name", Null, Str(p.name)) <==> ("name", Str(p.name)) in fields;
    hide GetOr, DistinctKeys;
    var kind, d, v := GetOr(fields, "type", Str("string")), GetOr(fields, "description", Null), GetOr(fields, "default", Null);
    assert FieldIs(fields, "type", Str("string"), kind) && FieldIs(fields, "description", Null, d) && FieldIs(fields, "default", Null, v);
    hide FieldIs;
  }

  lemma {:induction false} ReadAllIff(text: Json -> string, list: seq<Json>, ps: seq<Template.Parameter>)
    ensures ReadAll(text, list) == Some(ps)
            <==> |ps| == |list| && forall i :: 0 <= i < |list| ==> ReadParameter(text, list[i]) == Some(ps[i])
  {
    hide ReadParameter;
    if list != [] && ps != [] {
      ReadAllIff(text, list[1..], ps[1..]);
      assert ps == [ps[0]] + ps[1..];
      if |ps| == |list| && forall i :: 0 <= i < |list| ==> ReadParameter(text, list[i]) == Some(ps[i]) {
        forall i | 0 <= i < |list| - 1 ensures ReadParameter(text, list[1..][i]) == Some(ps[1..][i]) {
          assert list[1..][i] == list[i + 1];
        }
      }
    }
  }

  /** The parameters of a stored command: none for null, and otherwise those of the list, one each, in
      order; a text stands for a required parameter without default. */
  lemma ReadParametersIff(text: Json -> string, list: seq<Json>, ps: seq<Template.Parameter>)
    ensures ReadParameters(text, Null) == Some([])
    ensures ReadParameters(text, Arr(list)) == Some(ps)
            <==> |ps| == |list| && forall i :: 0 <= i < |list| ==> ReadParameter(text, list[i]) == Some(ps[i])
    ensures forall name :: ReadParameter(text, Str(name)) == Some(Template.Parameter(name, true, None))
    ensures forall j :: j in {Null, Bool(true), Int(1), Arr([])} ==> ReadParameter(text, j) == None
  {
    ReadAllIff(text, list, ps);
    hide ReadAll;
  }

  /** A step for which something is the matter that `_resolve_step` neither returns nor catches, said of its
      JSON. */
  ghost predicate Raises(cat: Catalog, fields: Fields) {
    || (forall v :: ("label", v) !in fields)
    || (forall v :: ("type", v) !in fields)
    || (("type", Str("inline")) in fields && exists v :: ("command", v) in fields && Truthy(v) && !v.Str?)
    || (("type", Str("command")) in fields && exists v :: ("command_id", v) in fields && Truthy(v) && ReferenceRaises(cat, fields, v))
  }

  ghost predicate ReferenceRaises(cat: Catalog, fields: Fields, v: Json) {
    || cat.parse(cat.text(v)) == None
    || (exists id :: cat.parse(cat.text(v)) == Some(id) && id in cat.commands
          && (ReadParameters(cat.text, cat.commands[id].parameters).None? || exists p :: ("params", p) in fields && !p.Obj?))
  }

  /** Which steps abort a script. */
  lemma MalformedIff(cat: Catalog, step: Json)
    requires step.Obj? ==> DistinctKeys(step.fields)
    ensures Malformed(cat, step) <==> !step.Obj? || Raises(cat, step.fields)
  {
    if step.Obj? {
      var fields := step.fields;
      GetIff(fields, "label");
      GetIff(fields, "type");
      GetIff(fields, "command");
      GetIff(fields, "command_id");
      GetIff(fields, "params");
      hide Get, DistinctKeys, ReadParameters, Truthy;
      forall v | ("command_id", v) in fields ensures MalformedReference(cat, fields) <==> ReferenceRaises(cat, fields, v) {
      }
      assert Get(fields, "command_id").None? ==> GetOr(fields, "command_id", Null) == Null;
      assert !Truthy(Null) by { NullIsFalse(); }
      hide MalformedReference, ReferenceRaises;
    }
  }

  lemma NullIsFalse()
    ensures !Truthy(Null)
  {
  }

  /** The error of a step that does not abort its script, when its command is missing or unknown. */
  lemma StepErrorIs(cat: Catalog, step: Fields, globals: map<string, Json>, kind: Json)
    requires DistinctKeys(step) && !Malformed(cat, Obj(step)) && ("type", kind) in step
    ensures var r, id := ResolveStep(cat, Obj(step), globals), GetOr(step, "command_id", Null);
            && FieldIs(step, "command_id", Null, id)
            && r.Some? && ("label", r.value.title) in step
            && (kind == Str("inline") && (forall v :: ("command", v) in step ==> !Truthy(v)) ==>
                  r.value.error == Some(cat.describe(NoCommand)))
            && (kind == Str("command") && !Truthy(id) ==> r.value.error == Some(cat.describe(NoCommandId)))
            && (kind == Str("command") && Truthy(id) ==>
                  cat.parse(cat.text(id)).Some? &&
                  (cat.parse(cat.text(id)).value !in cat.commands ==>
                     r.value.error == Some(cat.describe(NotFound(cat.parse(cat.text(id)).value)))))
            && (kind !in {Str("inline"), Str("command")} ==> r.value.error == Some(cat.describe(UnknownType(kind))))
            && (r.value.error.Some? ==> r.value.command == "")
  {
    GetIff(step, "label");
    GetIff(step, "type");
    GetIff(step, "command");
    FieldIff(step, "command_id", Null);
    NullIsFalse();
    hide Get, DistinctKeys, Truthy, Template.Render, Merged, ReadParameters, FieldIs;
  }

  lemma {:induction false} OwnNames(params: Fields, name: string)
    ensures Get(params, name).Some? <==> exists i :: 0 <= i < |params| && params[i].0 == name
  {
    if params != [] && params[0].0 != name {
      OwnNames(params[1..], name);
      if i :| 0 <= i < |params| && params[i].0 == name {
        assert params[1..][i - 1].0 == name;
      }
    }
  }

  lemma MergedWins(cat: Catalog, params: Fields, g: map<string, Json>, h: map<string, Json>)
    requires forall name :: Get(params, name).None? ==> (name in g <==> name in h) && (name in g && name in h ==> g[name] == h[name])
    ensures Merged(cat, g, params) == Merged(cat, h, params)
  {
    forall name ensures name in Merged(cat, g, params) <==> name in Merged(cat, h, params) {
      OwnNames(params, name);
    }
  }

  function ResolveAll(cat: Catalog, steps: seq<Json>, globals: map<string, Json>): (r: Option<seq<ResolvedStep>>)
    ensures r.Some? ==> |r.value| == |steps|
  {
    if steps == [] then Some([])
    else
      var n := |steps| - 1;
      match (ResolveAll(cat, steps[..n], globals), ResolveStep(cat, steps[n], globals))
      case (Some(before), Some(step)) => Some(before + [step])
      case _ => None
  }

  /** Resolution of a whole script fails iff some step is malformed; any other problem stays inside its
      own step. */
  lemma {:induction false} ResolveAllIff(cat: Catalog, steps: seq<Json>, globals: map<string, Json>)
    ensures ResolveAll(cat, steps, globals).None? <==> exists i :: 0 <= i < |steps| && Malformed(cat, steps[i])
    ensures ResolveAll(cat, steps, globals).Some? ==>
              forall i :: 0 <= i < |steps| ==> ResolveStep(cat, steps[i], globals) == Some(ResolveAll(cat, steps, globals).value[i])
  {
    if steps != [] {
      var n := |steps| - 1;
      ResolveAllIff(cat, steps[..n], globals);
      assert ResolveStep(cat, steps[n], globals).None? <==> Malformed(cat, steps[n]);
      hide ResolveStep, Malformed;
      if i :| 0 <= i < |steps| && Malformed(cat, steps[i]) {
        assert i < n ==> steps[..n][i] == steps[i];
      }
      if ResolveAll(cat, steps[..n], globals).None? {
        var i :| 0 <= i < n && Malformed(cat, steps[..n][i]);
        assert Malformed(cat, steps[i]);
      } else if ResolveAll(cat, steps, globals).Some? {
        forall i | 0 <= i < |steps| ensures ResolveStep(cat, steps[i], globals) == Some(ResolveAll(cat, steps, globals).value[i]) {
          if i < n {
            assert steps[..n][i] == steps[i];
          }
        }
      }
    }
  }

  /** What validation leaves to go wrong: a validated step is malformed iff it has no label, or its inline
      command is neither text nor empty, or its reference raises. */
  lemma ValidatedIsMalformedIff(cat: Catalog, step: Json)
    requires ValidStep(step)
    ensures var command := GetOr(step.fields, "command", Null);
            Malformed(cat, step) <==>
              || Get(step.fields, "label").None?
              || (GetOr(step.fields, "type", Null) == Str("inline") && Truthy(command) && !command.Str?)
              || (GetOr(step.fields, "type", Null) == Str("command") && Truthy(GetOr(step.fields, "command_id", Null))
                  && MalformedReference(cat, step.fields))
  {
    hide Get, MalformedReference, Truthy;
  }

  /** A second step without a label, with the command 5, or with null parameters passes the validation of
      a pack, and then no step of the script runs: the first one, which resolves, neither. */
  lemma ValidatedScriptAborts(cat: Catalog, id: string, second: Json, globals: map<string, Json>)
    requires id != "" && cat.parse(cat.text(Str(id))).Some? && cat.parse(cat.text(Str(id))).value in cat.commands
    requires second in {
               Obj([("type", Str("inline")), ("command", Str("ls"))]),
               Obj([("label", Str("b")), ("type", Str("inline")), ("command", Int(5))]),
               Obj([("label", Str("b")), ("type", Str("command")), ("command_id", Str(id)), ("params", Null)])}
    ensures var first := Obj([("label", Str("a")), ("type", Str("inline")), ("command", Str("w"))]);
            && ValidateScript("s", [("steps", Arr([first, second]))]).Some?
            && ResolveStep(cat, first, globals) == Some(ResolvedStep(Str("a"), "w", Str("stop"), None))
            && ResolveAll(cat, [first, second], globals).None?
  {
    var fields := [("label", Str("a")), ("type", Str("inline")), ("command", Str("w"))];
    var steps := [Obj(fields), second];
    FirstStep(cat, globals);
    SecondStep(cat, id, second);
    ResolveAllIff(cat, steps, globals);
    assert Malformed(cat, steps[1]);
    var payload: Fields := [("steps", Arr(steps))];
    GetAt(payload, 0, "steps");
    GetNone(payload, "tags");
    GetNone(payload, "timeout");
    hide Get, Malformed, ResolveStep, ResolveAll, ValidStep;
    assert forall step :: step in steps ==> ValidStep(step);
  }

  lemma FirstStep(cat: Catalog, globals: map<string, Json>)
    ensures var first := Obj([("label", Str("a")), ("type", Str("inline")), ("command", Str("w"))]);
            ValidStep(first) && ResolveStep(cat, first, globals) == Some(ResolvedStep(Str("a"), "w", Str("stop"), None))
  {
    var fields := [("label", Str("a")), ("type", Str("inline")), ("command", Str("w"))];
    assert Get(fields, "label") == Some(Str("a")) && Get(fields, "type") == Some(Str("inline"));
    assert Get(fields, "command") == Some(Str("w")) && Get(fields, "on_failure") == None;
    assert Template.Parse(cat.word, "w") == [Template.Text('w')];
    assert Template.Slots([Template.Text('w')]) == {};
    InlineStepUnchanged(cat, fields, globals);
    hide Get, Template.Parse, Command;
  }

  lemma SecondStep(cat: Catalog, id: string, second: Json)
    requires id != "" && cat.parse(cat.text(Str(id))).Some? && cat.parse(cat.text(Str(id))).value in cat.commands
    requires second in {
               Obj([("type", Str("inline")), ("command", Str("ls"))]),
               Obj([("label", Str("b")), ("type", Str("inline")), ("command", Int(5))]),
               Obj([("label", Str("b")), ("type", Str("command")), ("command_id", Str(id)), ("params", Null)])}
    ensures ValidStep(second) && Malformed(cat, second)
  {
    var fields := second.fields;
    if |fields| == 2 {
      GetAt(fields, 0, "type");
      GetNone(fields, "label");
    } else if |fields| == 3 {
      GetAt(fields, 1, "type");
      GetAt(fields, 2, "command");
    } else {
      GetAt(fields, 1, "type");
      GetAt(fields, 2, "command_id");
      GetAt(fields, 3, "params");
    }
    hide Get;
  }

  // ----- the reference interpreter ----------------------------------------------------------

  datatype Answer = Answer(stdout: string, stderr: string, code: int)

  datatype Reply = Answered(answer: Answer) | TimedOut | Raised

  /** The remote side: whether the session opens and closes, and the reply to the last of the
      commands it was sent. */
  datatype Remote = Remote(opens: bool, reply: seq<string> -> Reply, closes: bool)

  datatype Target = Target(steps: seq<ResolvedStep>, timeout: nat, fingerprint: string -> string)

  datatype StepResult = StepResult(
    index: nat, title: Json, fingerprint: string, stdout: string, stderr: string,
    stdoutBytes: nat, stderrBytes: nat, truncated: bool, code: int)

  datatype Status = Success | Error

  datatype NodeResult = NodeResult(status: Status, steps: seq<StepResult>)

  /** The commands that steps send to the remote side: those of the resolved ones. */
  function Sent(steps: seq<ResolvedStep>): seq<string> {
    if steps == [] then []
    else
      var last := steps[|steps| - 1];
      Sent(steps[..|steps| - 1]) + (if last.error.None? then [last.command] else [])
  }

  function AfterTimeout(timeout: nat, reply: Reply): Option<Answer> {
    match reply
    case Answered(answer) => Some(answer)
    case TimedOut => Some(Answer("", "Timeout after " + Names.Decimal(timeout) + "s", 124))
    case Raised => None
  }

  /** What step `i` yields when every step before it was reached; nothing if it raises. */
  function Yield(t: Target, remote: Remote, i: nat): Option<Answer>
    requires i < |t.steps|
  {
    if t.steps[i].error.Some? then Some(Answer("", t.steps[i].error.value, 1))
    else AfterTimeout(t.timeout, remote.reply(Sent(t.steps[..i + 1])))
  }

  predicate Breaks(t: Target, remote: Remote, i: nat)
    requires i < |t.steps|
  {
    Yield(t, remote, i).None?
  }

  function AnswerOf(t: Target, remote: Remote, i: nat): Answer
    requires i < |t.steps| && !Breaks(t, remote, i)
  {
    Yield(t, remote, i).value
  }

  predicate Stops(t: Target, remote: Remote, i: nat)
    requires i < |t.steps|
  {
    Yield(t, remote, i).Some? && Yield(t, remote, i).value.code != 0 && t.steps[i].onFailure == Str("stop")
  }

  /** The first step at which the interpreter leaves its loop, or the number of steps. */
  function End(t: Target, remote: Remote, i: nat): (n: nat)
    requires i <= |t.steps|
    ensures i <= n <= |t.steps|
    ensures forall k :: i <= k < n ==> !Breaks(t, remote, k) && !Stops(t, remote, k)
    ensures n < |t.steps| ==> Breaks(t, remote, n) || Stops(t, remote, n)
    decreases |t.steps| - i
  {
    if i == |t.steps| || Breaks(t, remote, i) || Stops(t, remote, i) then i else End(t, remote, i + 1)
  }

  function Bounded(text: string): BoundedOutput {
    BoundOutput(text, DEFAULT_MAX_PERSISTED_OUTPUT_BYTES).value
  }

  function ResultOf(t: Target, i: nat, a: Answer): StepResult
    requires i < |t.steps|
  {
    var out, err := Bounded(a.stdout), Bounded(a.stderr);
    StepResult(i, t.steps[i].title, t.fingerprint(t.steps[i].command), out.value, err.value,
               out.originalBytes, err.originalBytes, out.truncated || err.truncated, a.code)
  }

  function Results(t: Target, remote: Remote, n: nat): (r: seq<StepResult>)
    requires n <= |t.steps| && forall k :: 0 <= k < n ==> !Breaks(t, remote, k)
    ensures |r| == n
  {
    if n == 0 then [] else Results(t, remote, n - 1) + [ResultOf(t, n - 1, AnswerOf(t, remote, n - 1))]
  }

  lemma {:induction false} ResultsAt(t: Target, remote: Remote, n: nat)
    requires n <= |t.steps| && forall k :: 0 <= k < n ==> !Breaks(t, remote, k)
    ensures forall k :: 0 <= k < n ==> Results(t, remote, n)[k] == ResultOf(t, k, AnswerOf(t, remote, k))
  {
    hide ResultOf, AnswerOf;
    if n > 0 {
      ResultsAt(t, remote, n - 1);
    }
  }

  /** How many steps leave a result: a failing `stop` step does, one that raises does not. */
  function Reached(t: Target, remote: Remote): (n: nat)
    ensures n <= |t.steps|
    ensures forall k :: 0 <= k < n ==> !Breaks(t, remote, k)
  {
    var n := End(t, remote, 0);
    if !remote.opens then 0 else if n < |t.steps| && Stops(t, remote, n) then n + 1 else n
  }

  /** Whether an exception ends the run: the session fails to open or to close, or a command raises. */
  predicate Interrupted(t: Target, remote: Remote) {
    !remote.opens || !remote.closes || (End(t, remote, 0) < |t.steps| && Breaks(t, remote, End(t, remote, 0)))
  }

  predicate AllZero(steps: seq<StepResult>) {
    forall i :: 0 <= i < |steps| ==> steps[i].code == 0
  }

  /** The result of a run, said without a loop. */
  function Interpreted(t: Target, remote: Remote): NodeResult {
    var steps := Results(t, remote, Reached(t, remote));
    NodeResult(if !Interrupted(t, remote) && AllZero(steps) then Success else Error, steps)
  }

  /** What the remote side is sent: the commands of the steps with a result, and of the one that raised. */
  function Executed(t: Target, remote: Remote): seq<string> {
    var n := Reached(t, remote);
    if !remote.opens then []
    else if End(t, remote, 0) == n < |t.steps| then Sent(t.steps[..n + 1])
    else Sent(t.steps[..n])
  }

  // ----- the loop ------------------------------------------------------------------------------

  class Connector {
    const remote: Remote
    var open: bool
    var executed: seq<string>

    constructor (remote: Remote)
      ensures this.remote == remote && !open && executed == []
    {
      this.remote := remote;
      open, executed := false, [];
    }

    method Connect() returns (ok: bool)
      modifies this
      ensures ok == open == remote.opens && executed == old(executed)
    {
      open := remote.opens;
      ok := open;
    }

    method ExecuteCommand(command: string) returns (r: Reply)
      requires open
      modifies this
      ensures open && executed == old(executed) + [command] && r == remote.reply(executed)
    {
      executed := executed + [command];
      r := remote.reply(executed);
    }

    method Disconnect() returns (ok: bool)
      modifies this
      ensures !open && ok == remote.closes && executed == old(executed)
    {
      open := false;
      ok := remote.closes;
    }
  }

  /** One step: a resolved one runs remotely, any other yields its resolution error. */
  method RunStep(t: Target, connector: Connector, i: nat) returns (answer: Option<Answer>)
    requires i < |t.steps| && connector.open && connector.executed == Sent(t.steps[..i])
    modifies connector
    ensures connector.open && connector.executed == Sent(t.steps[..i + 1])
    ensures answer == Yield(t, connector.remote, i)
  {
    hide Names.Decimal;
    assert t.steps[..i + 1][..i] == t.steps[..i];
    var step := t.steps[i];
    if step.error.Some? {
      return Some(Answer("", step.error.value, 1));
    }
    var reply := connector.ExecuteCommand(step.command);
    answer := AfterTimeout(t.timeout, reply);
  }

  /** The loop over the steps of an open session. */
  method RunSteps(t: Target, connector: Connector) returns (results: seq<StepResult>, status: Status, raised: bool)
    requires connector.open && connector.executed == [] && connector.remote.opens
    modifies connector
    ensures connector.open && Left(t, connector.remote, results, connector.executed, raised)
    ensures status == Success <==> AllZero(results)
  {
    results, status, raised := [], Success, false;
    var i := 0;
    AtStart(t, connector.remote);
    while i < |t.steps|
      invariant 0 <= i <= |t.steps| && connector.open
      invariant At(t, connector.remote, i, results, connector.executed)
      invariant status == Success <==> AllZero(results)
    {
      SentAt(t, connector.remote, i, results, connector.executed);
      hide *;
      ghost var before := connector.executed;
      var answer := RunStep(t, connector, i);
      AtStep(t, connector.remote, i, results, before, answer, connector.executed);
      if answer.None? {
        return results, status, true;
      }
      AllZeroSnoc(results, results + [ResultOf(t, i, answer.value)]);
      results := results + [ResultOf(t, i, answer.value)];
      if answer.value.code != 0 {
        status := Error;
        if t.steps[i].onFailure == Str("stop") {
          return results, status, false;
        }
      }
      i := i + 1;
    }
    AtEnd(t, connector.remote, i, results, connector.executed);
  }

  /** `_run_remote`: the result is the reference one, exactly the commands of the steps reached are
      sent, and the session is never left open. */
  method RunRemote(t: Target, connector: Connector) returns (r: NodeResult)
    requires !connector.open && connector.executed == []
    modifies connector
    ensures r == Interpreted(t, connector.remote)
    ensures connector.executed == Executed(t, connector.remote)
    ensures !connector.open
  {
    hide End, Breaks, Results, AllZero;
    var connected := connector.Connect();
    if !connected {
      assert Results(t, connector.remote, 0) == [] by { NoResults(t, connector.remote); }
      return NodeResult(Error, []);
    }
    var results, status, raised := RunSteps(t, connector);
    hide Interrupted, Reached, Executed;
    var closed := connector.Disconnect();
    if raised || !closed {
      status := Error;
    }
    r := NodeResult(status, results);
  }

  lemma NoResults(t: Target, remote: Remote)
    ensures Results(t, remote, 0) == []
  {
  }

  /** The loop has reached step `i` with these results, having sent these commands. */
  ghost predicate At(t: Target, remote: Remote, i: nat, results: seq<StepResult>, sent: seq<string>) {
    i <= |t.steps| && i <= End(t, remote, 0) && results == Results(t, remote, i) && sent == Sent(t.steps[..i])
  }

  /** The loop has been left. */
  ghost predicate Left(t: Target, remote: Remote, results: seq<StepResult>, sent: seq<string>, raised: bool) {
    && results == Results(t, remote, Reached(t, remote))
    && sent == Executed(t, remote)
    && (raised || !remote.closes <==> Interrupted(t, remote))
  }

  lemma AtStart(t: Target, remote: Remote)
    ensures At(t, remote, 0, [], [])
  {
    assert t.steps[..0] == [];
  }

  lemma SentAt(t: Target, remote: Remote, i: nat, results: seq<StepResult>, sent: seq<string>)
    requires At(t, remote, i, results, sent)
    ensures i <= |t.steps| && sent == Sent(t.steps[..i])
  {
  }

  /** What one step does to the loop, whether it raises, stops the script or goes on. */
  lemma AtStep(t: Target, remote: Remote, i: nat, results: seq<StepResult>, sent: seq<string>, answer: Option<Answer>, sent': seq<string>)
    requires i < |t.steps| && remote.opens && At(t, remote, i, results, sent)
    requires answer == Yield(t, remote, i) && sent' == Sent(t.steps[..i + 1])
    ensures answer.None? ==> Left(t, remote, results, sent', true)
    ensures answer.Some? ==>
              var results' := results + [ResultOf(t, i, answer.value)];
              if answer.value.code != 0 && t.steps[i].onFailure == Str("stop") then Left(t, remote, results', sent', false)
              else At(t, remote, i + 1, results', sent')
  {
    hide Yield, Sent, ResultOf;
    if answer.None? {
      assert Breaks(t, remote, i) && !Stops(t, remote, i);
      assert End(t, remote, 0) == i;
    } else {
      assert !Breaks(t, remote, i) && AnswerOf(t, remote, i) == answer.value;
      assert Stops(t, remote, i) ==> End(t, remote, 0) == i;
      assert !Stops(t, remote, i) ==> End(t, remote, 0) > i;
    }
  }

  lemma AtEnd(t: Target, remote: Remote, i: nat, results: seq<StepResult>, sent: seq<string>)
    requires i == |t.steps| && remote.opens && At(t, remote, i, results, sent)
    ensures Left(t, remote, results, sent, false)
  {
    hide Yield, Sent;
  }

  lemma AllZeroSnoc(before: seq<StepResult>, after: seq<StepResult>)
    requires |after| == |before| + 1 && before == after[..|before|]
    ensures AllZero(after) <==> AllZero(before) && after[|before|].code == 0
  {
    if AllZero(after) {
      forall i | 0 <= i < |before| ensures before[i].code == 0 {
        assert before[i] == after[i];
      }
    }
  }

  // ----- what the interpreter promises -------------------------------------------------------------

  lemma InterpretedAt(t: Target, remote: Remote)
    ensures var r := Interpreted(t, remote).steps;
            && |r| == Reached(t, remote)
            && forall i :: 0 <= i < |r| ==> r[i] == ResultOf(t, i, AnswerOf(t, remote, i))
  {
    ResultsAt(t, remote, Reached(t, remote));
  }

  /** The last result is that of a failing step under `stop`. */
  predicate StoppedBy(t: Target, r: seq<StepResult>)
    requires |r| <= |t.steps|
  {
    r != [] && r[|r| - 1].code != 0 && t.steps[|r| - 1].onFailure == Str("stop")
  }

  /** The results are those of the steps up to and including the first that fails under `stop`, or up to the
      one whose command raises, or of all steps; every result stands at its own position.  Exactly the
      commands of these steps are sent, and the one that raised. */
  lemma ResultsReachFirstStop(t: Target, remote: Remote)
    ensures var r := Interpreted(t, remote).steps;
            && (forall i :: 0 <= i < |r| ==> r[i].index == i && r[i].title == t.steps[i].title)
            && (forall i :: 0 <= i < |r| - 1 ==> r[i].code == 0 || t.steps[i].onFailure != Str("stop"))
            && (!remote.opens ==> r == [])
            && (remote.opens ==>
                  |r| == |t.steps| || StoppedBy(t, r)
                  || (t.steps[|r|].error.None? && remote.reply(Sent(t.steps[..|r| + 1])).Raised?))
            && Executed(t, remote) ==
                 if !remote.opens then []
                 else Sent(t.steps[..if |r| == |t.steps| || StoppedBy(t, r) then |r| else |r| + 1])
  {
    ReachedIs(t, remote);
    InterpretedStops(t, remote);
    var n := Reached(t, remote);
    BreaksIs(t, remote, n);
    hide Interpreted, Results, Executed, Reached, Stops, Breaks, Sent;
  }

  lemma BreaksIs(t: Target, remote: Remote, i: nat)
    ensures i < |t.steps| ==> (Breaks(t, remote, i) <==> t.steps[i].error.None? && remote.reply(Sent(t.steps[..i + 1])).Raised?)
  {
    hide Sent;
  }

  lemma InterpretedStops(t: Target, remote: Remote)
    ensures var r := Interpreted(t, remote).steps;
            && |r| == Reached(t, remote)
            && forall i :: 0 <= i < |r| ==>
                 && r[i].index == i && r[i].title == t.steps[i].title
                 && (Stops(t, remote, i) <==> r[i].code != 0 && t.steps[i].onFailure == Str("stop"))
  {
    InterpretedAt(t, remote);
    var r := Interpreted(t, remote).steps;
    forall i | 0 <= i < |r|
      ensures r[i].index == i && r[i].title == t.steps[i].title
      ensures Stops(t, remote, i) <==> r[i].code != 0 && t.steps[i].onFailure == Str("stop")
    {
      assert !Breaks(t, remote, i) && r[i] == ResultOf(t, i, AnswerOf(t, remote, i));
      hide Interpreted, Results, Reached, Bounded;
    }
    hide Stops, Breaks, ResultOf;
  }

  /** Where the interpreter leaves its loop. */
  lemma ReachedIs(t: Target, remote: Remote)
    ensures var n := Reached(t, remote);
            && (!remote.opens ==> n == 0)
            && (forall i :: 0 <= i < n - 1 ==> !Stops(t, remote, i))
            && (remote.opens ==>
                  var stopped := n > 0 && Stops(t, remote, n - 1);
                  && (n == |t.steps| || stopped || Breaks(t, remote, n))
                  && Executed(t, remote) == Sent(t.steps[..if n == |t.steps| || stopped then n else n + 1]))
            && (!remote.opens ==> Executed(t, remote) == [])
  {
    var n, end := Reached(t, remote), End(t, remote, 0);
    assert remote.opens && n > end ==> n == end + 1 && Stops(t, remote, end);
    assert remote.opens && n == end > 0 ==> !Stops(t, remote, n - 1);
    assert remote.opens && n == end < |t.steps| ==> Breaks(t, remote, n);
    hide Yield, Sent;
  }

  /** The status is success iff the session opened and closed, every step has its result, and every exit code
      is 0. */
  lemma SuccessIff(t: Target, remote: Remote)
    ensures var r := Interpreted(t, remote);
            && (r.status == Success <==>
                  remote.opens && remote.closes && |r.steps| == |t.steps| && forall i :: 0 <= i < |r.steps| ==> r.steps[i].code == 0)
            && (r.status == Success ==> forall i :: 0 <= i < |t.steps| ==> t.steps[i].error.None?)
  {
    ResultsReachFirstStop(t, remote);
    InterpretedAt(t, remote);
    var r := Interpreted(t, remote);
    assert End(t, remote, 0) < |t.steps| && Breaks(t, remote, End(t, remote, 0)) && remote.opens ==> |r.steps| < |t.steps|;
    if r.status == Success {
      forall i | 0 <= i < |t.steps| ensures t.steps[i].error.None? {
        assert r.steps[i] == ResultOf(t, i, AnswerOf(t, remote, i)) && r.steps[i].code == 0;
      }
    }
  }

  lemma {:induction false} SentFrom(steps: seq<ResolvedStep>, command: string)
    ensures command in Sent(steps) <==> exists i :: 0 <= i < |steps| && steps[i].error.None? && steps[i].command == command
  {
    if steps != [] {
      var n := |steps| - 1;
      SentFrom(steps[..n], command);
      if i :| 0 <= i < n && steps[..n][i].error.None? && steps[..n][i].command == command {
        assert steps[i].error.None? && steps[i].command == command;
      }
      if i :| 0 <= i < |steps| && steps[i].error.None? && steps[i].command == command {
        assert i < n ==> steps[..n][i] == steps[i];
      }
    }
  }

  /** A step that did not resolve never runs remotely: everything sent is the command of a resolved
      step, and its own result carries the resolution error and exit code 1. */
  lemma UnresolvedNeverRun(t: Target, remote: Remote)
    ensures forall c :: c in Executed(t, remote) ==>
              exists i :: 0 <= i < |t.steps| && t.steps[i].error.None? && t.steps[i].command == c
    ensures var r := Interpreted(t, remote).steps;
            forall i :: 0 <= i < |r| && t.steps[i].error.Some? ==>
              r[i].code == 1 && r[i].stdout == "" && r[i].stderr == Bounded(t.steps[i].error.value).value
  {
    forall c | c in Executed(t, remote)
      ensures exists i :: 0 <= i < |t.steps| && t.steps[i].error.None? && t.steps[i].command == c
    {
      var n := |Executed(t, remote)|;
      var k :| 0 <= k <= |t.steps| && Executed(t, remote) == Sent(t.steps[..k]);
      SentFrom(t.steps[..k], c);
      var i :| 0 <= i < k && t.steps[..k][i].error.None? && t.steps[..k][i].command == c;
      assert t.steps[i].error.None? && t.steps[i].command == c;
    }
    InterpretedAt(t, remote);
    BoundOutputIsLongestPrefix("", DEFAULT_MAX_PERSISTED_OUTPUT_BYTES);
    hide BoundOutput, Results, Reached;
  }

  /** The longest prefix of a text within 65,536 bytes. */
  ghost predicate LongestStored(kept: string, text: string) {
    && kept <= text && |Utf8.Encode(kept)| <= 65_536
    && forall p: string :: p <= text && |Utf8.Encode(p)| <= 65_536 ==> p <= kept
  }

  /** Every stored output is the longest prefix of the real one within 65,536 bytes, with the real sizes
      beside it, and flagged iff either was cut. */
  lemma OutputsAreBounded(t: Target, remote: Remote, i: nat)
    requires i < |Interpreted(t, remote).steps|
    ensures i < |t.steps| && Yield(t, remote, i).Some?
    ensures var r, a := Interpreted(t, remote).steps[i], Yield(t, remote, i).value;
            && LongestStored(r.stdout, a.stdout) && LongestStored(r.stderr, a.stderr)
            && r.stdoutBytes == |Utf8.Encode(a.stdout)| && r.stderrBytes == |Utf8.Encode(a.stderr)|
            && (r.truncated <==> r.stdout != a.stdout || r.stderr != a.stderr)
            && r.code == a.code
  {
    InterpretedAt(t, remote);
    assert !Breaks(t, remote, i);
    var a := Yield(t, remote, i).value;
    hide Yield, Results, Reached, Interpreted;
    BoundOutputIsLongestPrefix(a.stdout, DEFAULT_MAX_PERSISTED_OUTPUT_BYTES);
    BoundOutputIsLongestPrefix(a.stderr, DEFAULT_MAX_PERSISTED_OUTPUT_BYTES);
    hide BoundOutput, Utf8.Encode;
  }

  /** The commands of resolved steps are sent in the order of the steps, one each. */
  lemma {:induction false} SentInOrder(steps: seq<ResolvedStep>, i: nat)
    requires i < |steps|
    ensures |Sent(steps[..i])| + (if steps[i].error.None? then 1 else 0) == |Sent(steps[..i + 1])| <= |Sent(steps)|
    ensures steps[i].error.None? ==> Sent(steps)[|Sent(steps[..i])|] == steps[i].command
    decreases |steps|
  {
    var n := |steps| - 1;
    assert steps[..i + 1][..i] == steps[..i];
    if i < n {
      SentInOrder(steps[..n], i);
      assert steps[..n][..i] == steps[..i] && steps[..n][..i + 1] == steps[..i + 1];
    } else {
      assert steps[..i + 1] == steps;
    }
  }

  /** What the result of a step holds: its position, label and fingerprint, and the outcome of running it.
      An unresolved step yields its error and 1; a command that times out yields 124 and says so; any other
      what the remote side replied to the commands sent so far. */
  lemma ResultIs(t: Target, remote: Remote, i: nat)
    requires i < |Interpreted(t, remote).steps|
    ensures i < |t.steps|
    ensures var r, step := Interpreted(t, remote).steps[i], t.steps[i];
            && r.index == i && r.title == step.title && r.fingerprint == t.fingerprint(step.command)
            && (step.error.Some? ==> r.code == 1 && r.stdout == "" && LongestStored(r.stderr, step.error.value))
            && (step.error.None? ==>
                  match remote.reply(Sent(t.steps[..i + 1]))
                  case Answered(a) => r.code == a.code && LongestStored(r.stdout, a.stdout) && LongestStored(r.stderr, a.stderr)
                  case TimedOut => r.code == 124 && r.stdout == "" && LongestStored(r.stderr, "Timeout after " + Names.Decimal(t.timeout) + "s")
                  case Raised => false)
  {
    InterpretedAt(t, remote);
    OutputsAreBounded(t, remote, i);
    hide LongestStored, Results, Reached, Bounded, Sent;
    var r := Interpreted(t, remote).steps[i];
    assert r == ResultOf(t, i, AnswerOf(t, remote, i));
    assert LongestStored(r.stdout, Yield(t, remote, i).value.stdout) && LongestStored(r.stderr, Yield(t, remote, i).value.stderr);
    OnlyEmpty(r.stdout, Yield(t, remote, i).value.stdout);
    hide Interpreted;
  }

  lemma OnlyEmpty(kept: string, text: string)
    requires LongestStored(kept, text)
    ensures text == "" ==> kept == ""
  {
  }

  /** Two remote sides that answer alike before step `n`. */
  ghost predicate AgreeBefore(t: Target, a: Remote, b: Remote, n: nat)
    requires n <= |t.steps|
  {
    forall i :: 0 <= i < n ==> Yield(t, a, i) == Yield(t, b, i)
  }

  /** An exception keeps the prefix and forces the error status: whatever another remote side, which
      does not raise there, would have gone on to do, the results so far are the same. */
  lemma ExceptionKeepsPrefix(t: Target, a: Remote, b: Remote)
    requires a.opens && b.opens && AgreeBefore(t, a, b, Reached(t, a)) && Interrupted(t, a)
    ensures Interpreted(t, a).status == Error
    ensures Interpreted(t, a).steps <= Interpreted(t, b).steps
  {
    var n := Reached(t, a);
    InterpretedAt(t, a);
    InterpretedAt(t, b);
    hide Yield, ResultOf, Results;
    assert Reached(t, b) >= n by {
      if End(t, b, 0) < n {
        assert Breaks(t, b, End(t, b, 0)) == Breaks(t, a, End(t, b, 0));
        assert Stops(t, b, End(t, b, 0)) == Stops(t, a, End(t, b, 0));
      }
    }
    var r, q := Interpreted(t, a).steps, Interpreted(t, b).steps;
    forall i | 0 <= i < n ensures r[i] == q[i] {
      assert Yield(t, a, i) == Yield(t, b, i);
    }
    assert r == q[..n];
  }
}
