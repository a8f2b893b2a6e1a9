/** The JSON content of a template pack and the structural checks that an
    installation makes on each item. */
module PackContent {
  import opened Prelude

  datatype Json =
    | Null
    | Bool(b: bool)
    | Int(n: int)
    | Float(x: real)
    | Str(s: string)
    | Arr(items: seq<Json>)
    | Obj(fields: seq<(string, Json)>)

  /** dict.get(key) on an object with distinct keys. */
  function Get(fields: seq<(string, Json)>, key: string): Option<Json> {
    if fields == [] then None
    else if fields[0].0 == key then Some(fields[0].1)
    else Get(fields[1..], key)
  }

  function GetOr(fields: seq<(string, Json)>, key: string, default: Json): Json {
    match Get(fields, key)
    case Some(value) => value
    case None => default
  }

  type Fields = seq<(string, Json)>

  predicate DistinctKeys(fields: Fields) { forall i, j :: 0 <= i < j < |fields| ==> fields[i].0 != fields[j].0 }

  /** The value of a field, or the default of one that is absent. */
  ghost predicate FieldIs(fields: Fields, key: string, default: Json, v: Json) {
    (key, v) in fields || (v == default && forall u :: (key, u) !in fields)
  }

  lemma {:induction false} GetAt(fields: Fields, i: nat, key: string)
    requires i < |fields| && fields[i].0 == key && forall j :: 0 <= j < i ==> fields[j].0 != key
    ensures Get(fields, key) == Some(fields[i].1)
  {
    if i > 0 {
      GetAt(fields[1..], i - 1, key);
    }
  }

  lemma {:induction false} GetNone(fields: Fields, key: string)
    requires forall j :: 0 <= j < |fields| ==> fields[j].0 != key
    ensures Get(fields, key) == None
  {
    if fields != [] {
      GetNone(fields[1..], key);
    }
  }

  /** Looking up a key finds its field, and nothing but it. */
  lemma GetIff(fields: Fields, key: string)
    requires DistinctKeys(fields)
    ensures forall v :: Get(fields, key) == Some(v) <==> (key, v) in fields
  {
    if i :| 0 <= i < |fields| && fields[i].0 == key {
      GetAt(fields, i, key);
      hide Get;
      assert fields[i] == (key, fields[i].1);
      forall v | (key, v) in fields ensures v == fields[i].1 {
        var j :| 0 <= j < |fields| && fields[j] == (key, v);
      }
    } else {
      GetNone(fields, key);
      hide Get;
    }
  }

  lemma FieldIff(fields: Fields, key: string, default: Json)
    requires DistinctKeys(fields)
    ensures forall v :: GetOr(fields, key, default) == v <==> FieldIs(fields, key, default, v)
  {
    GetIff(fields, key);
    hide Get, DistinctKeys;
    if Get(fields, key).Some? {
      assert (key, Get(fields, key).value) in fields;
    }
  }

  predicate Truthy(j: Json) {
    match j
    case Null => false
    case Bool(b) => b
    case Int(n) => n != 0
    case Float(x) => x != 0.0
    case Str(s) => s != ""
    case Arr(items) => items != []
    case Obj(fields) => fields != []
  }

  /** list(value): None stands for TypeError. */
  function AsList(j: Json): Option<seq<Json>> {
    match j
    case Arr(items) => Some(items)
    case Str(s) => Some(seq(|s|, i requires 0 <= i < |s| => Str([s[i]])))
    case Obj(fields) => Some(seq(|fields|, i requires 0 <= i < |fields| => Str(fields[i].0)))
    case _ => None
  }

  datatype Kind = Command | Script

  /** One entry of commands.json or scripts.json, with its requested name as text. */
  datatype Item = Item(name: string, fields: seq<(string, Json)>)

  datatype Body =
    | CommandBody(description: Json, command: string, parameters: Json, tags: seq<Json>, timeout: int)
    | ScriptBody(description: Json, steps: seq<Json>, tags: seq<Json>, timeout: int)

  function Tags(fields: seq<(string, Json)>): Option<seq<Json>> {
    var tags := GetOr(fields, "tags", Null);
    if Truthy(tags) then AsList(tags) else Some([])
  }

  predicate ValidName(name: string) { 1 <= |name| <= 255 }

  /** `_validate_command_payload`: None stands for any exception, which becomes an error item. */
  function ValidateCommand(name: string, fields: seq<(string, Json)>): Option<Body> {
    var command := GetOr(fields, "command", Null);
    var timeout := GetOr(fields, "timeout", Int(60));
    var parameters := GetOr(fields, "parameters", Null);
    if !ValidName(name) then None
    else if !(command.Str? && 1 <= |command.s| <= 4096) then None
    else if !timeout.Int? then None
    else
      match Tags(fields)
      case None => None
      case Some(tags) =>
        Some(CommandBody(GetOr(fields, "description", Null), command.s,
                         if Truthy(parameters) then parameters else Arr([]), tags, timeout.n))
  }

  predicate ValidStep(step: Json) {
    && step.Obj?
    && var kind := GetOr(step.fields, "type", Null);
    && kind in {Str("inline"), Str("command")}
    && (kind == Str("command") ==>
          Truthy(GetOr(step.fields, "command_id", Null)) || Truthy(GetOr(step.fields, "command_name", Null)))
  }

  /** `_validate_script_payload` */
  function ValidateScript(name: string, fields: seq<(string, Json)>): Option<Body> {
    var steps := GetOr(fields, "steps", Null);
    var timeout := GetOr(fields, "timeout", Int(60));
    if !ValidName(name) then None
    else if !(steps.Arr? && steps.items != []) then None
    else if exists step :: step in steps.items && !ValidStep(step) then None
    else if !timeout.Int? then None
    else
      match Tags(fields)
      case None => None
      case Some(tags) => Some(ScriptBody(GetOr(fields, "description", Null), steps.items, tags, timeout.n))
  }

  function Validate(kind: Kind, name: string, fields: seq<(string, Json)>): Option<Body> {
    match kind
    case Command => ValidateCommand(name, fields)
    case Script => ValidateScript(name, fields)
  }

  // ----- what a validated body holds -----------------------------------------------------

  /** `tags or []` as a list: an absent, null or empty value gives none, a text its characters, an object
      its keys. */
  predicate ListsTags(v: Json, tags: seq<Json>) {
    match v
    case Null => tags == []
    case Bool(b) => !b && tags == []
    case Int(n) => n == 0 && tags == []
    case Float(x) => x == 0.0 && tags == []
    case Str(text) => |tags| == |text| && forall i :: 0 <= i < |text| ==> tags[i] == Str([text[i]])
    case Arr(items) => tags == items
    case Obj(fields) => |tags| == |fields| && forall i :: 0 <= i < |fields| ==> tags[i] == Str(fields[i].0)
  }

  /** `parameters or []` */
  predicate GivesParameters(v: Json, parameters: Json) {
    if v in {Null, Bool(false), Int(0), Float(0.0), Str(""), Arr([]), Obj([])} then parameters == Arr([]) else parameters == v
  }

  ghost predicate StepSpelled(step: Json) {
    && step.Obj?
    && (("type", Str("inline")) in step.fields
        || (("type", Str("command")) in step.fields
            && exists key, v :: key in {"command_id", "command_name"} && (key, v) in step.fields && Truthy(v)))
  }

  /** The object spells this body: its fields are the components, and absent ones mean a null
      description, no parameters, no tags and a timeout of 60 seconds. */
  ghost predicate SpellsBody(kind: Kind, fields: Fields, body: Body) {
    && (body.CommandBody? <==> kind == Command)
    && FieldIs(fields, "description", Null, body.description)
    && FieldIs(fields, "timeout", Int(60), Int(body.timeout))
    && (exists v :: FieldIs(fields, "tags", Null, v) && ListsTags(v, body.tags))
    && (body.CommandBody? ==>
          && ("command", Str(body.command)) in fields && 1 <= |body.command| <= 4096
          && exists v :: FieldIs(fields, "parameters", Null, v) && GivesParameters(v, body.parameters))
    && (body.ScriptBody? ==>
          ("steps", Arr(body.steps)) in fields && body.steps != [] && forall step :: step in body.steps ==> StepSpelled(step))
  }

  lemma AsListIff(v: Json, tags: seq<Json>)
    ensures (if Truthy(v) then AsList(v) == Some(tags) else tags == []) <==> ListsTags(v, tags)
  {
    if v.Str? && ListsTags(v, tags) {
      assert tags == AsList(v).value;
    } else if v.Obj? && ListsTags(v, tags) {
      assert tags == AsList(v).value;
    }
  }

  lemma TagsIff(fields: Fields, tags: seq<Json>)
    requires DistinctKeys(fields)
    ensures Tags(fields) == Some(tags) <==> exists v :: FieldIs(fields, "tags", Null, v) && ListsTags(v, tags)
  {
    FieldIff(fields, "tags", Null);
    hide DistinctKeys, GetOr, FieldIs;
    var v := GetOr(fields, "tags", Null);
    assert FieldIs(fields, "tags", Null, v);
    AsListIff(v, tags);
    hide ListsTags, AsList, Truthy;
  }

  lemma ParametersIff(fields: Fields, parameters: Json)
    requires DistinctKeys(fields)
    ensures var v := GetOr(fields, "parameters", Null);
            parameters == (if Truthy(v) then v else Arr([]))
            <==> exists u :: FieldIs(fields, "parameters", Null, u) && GivesParameters(u, parameters)
  {
    FieldIff(fields, "parameters", Null);
    hide DistinctKeys, GetOr, FieldIs;
    var v := GetOr(fields, "parameters", Null);
    assert FieldIs(fields, "parameters", Null, v);
  }

  lemma StepIff(step: Json)
    requires step.Obj? ==> DistinctKeys(step.fields)
    ensures ValidStep(step) <==> StepSpelled(step)
  {
    if step.Obj? {
      FieldIff(step.fields, "type", Null);
      FieldIff(step.fields, "command_id", Null);
      FieldIff(step.fields, "command_name", Null);
      hide DistinctKeys, GetOr;
      var id, name := GetOr(step.fields, "command_id", Null), GetOr(step.fields, "command_name", Null);
      assert FieldIs(step.fields, "command_id", Null, id) && FieldIs(step.fields, "command_name", Null, name);
      assert FieldIs(step.fields, "type", Null, GetOr(step.fields, "type", Null));
      forall kind ensures FieldIs(step.fields, "type", Null, Str(kind)) <==> ("type", Str(kind)) in step.fields {
      }
      assert forall v :: ("command_id", v) in step.fields ==> FieldIs(step.fields, "command_id", Null, v);
      assert forall v :: ("command_name", v) in step.fields ==> FieldIs(step.fields, "command_name", Null, v);
      assert Truthy(id) ==> ("command_id", id) in step.fields;
      assert Truthy(name) ==> ("command_name", name) in step.fields;
    }
  }

  ghost predicate DistinctSteps(fields: Fields) {
    forall steps, step: Json :: ("steps", Arr(steps)) in fields && step in steps && step.Obj? ==> DistinctKeys(step.fields)
  }

  /** Validation accepts an object under a name iff the name has 1 to 255 characters and the object spells
      a body, and then it returns that body. */
  lemma ValidateIff(kind: Kind, name: string, fields: Fields, body: Body)
    requires DistinctKeys(fields) && DistinctSteps(fields)
    ensures Validate(kind, name, fields) == Some(body) <==> 1 <= |name| <= 255 && SpellsBody(kind, fields, body)
  {
    FieldIff(fields, "description", Null);
    FieldIff(fields, "timeout", Int(60));
    TagsIff(fields, body.tags);
    hide DistinctKeys, Tags, ListsTags, GivesParameters, Truthy;
    match kind
    case Command =>
      if body.CommandBody? { CommandIff(name, fields, body); }
    case Script =>
      if body.ScriptBody? { ScriptIff(name, fields, body); }
  }

  lemma CommandIff(name: string, fields: Fields, body: Body)
    requires DistinctKeys(fields) && body.CommandBody?
    ensures ValidateCommand(name, fields) == Some(body) <==> 1 <= |name| <= 255 && SpellsBody(Command, fields, body)
  {
    FieldIff(fields, "description", Null);
    FieldIff(fields, "timeout", Int(60));
    FieldIff(fields, "command", Null);
    TagsIff(fields, body.tags);
    ParametersIff(fields, body.parameters);
    assert FieldIs(fields, "command", Null, Str(body.command)) <==> ("command", Str(body.command)) in fields;
    hide DistinctKeys, GetOr, Tags, GivesParameters, ListsTags, Truthy, FieldIs;
  }

  lemma ScriptIff(name: string, fields: Fields, body: Body)
    requires DistinctKeys(fields) && DistinctSteps(fields) && body.ScriptBody?
    ensures ValidateScript(name, fields) == Some(body) <==> 1 <= |name| <= 255 && SpellsBody(Script, fields, body)
  {
    FieldIff(fields, "description", Null);
    FieldIff(fields, "timeout", Int(60));
    FieldIff(fields, "steps", Null);
    TagsIff(fields, body.tags);
    assert FieldIs(fields, "steps", Null, Arr(body.steps)) <==> ("steps", Arr(body.steps)) in fields;
    if ("steps", Arr(body.steps)) in fields {
      forall step | step in body.steps ensures ValidStep(step) <==> StepSpelled(step) {
        StepIff(step);
      }
    }
    hide DistinctKeys, GetOr, Tags, ListsTags, ValidStep, StepSpelled, DistinctSteps, FieldIs;
  }

  /** An object that spells a body, field by field. */
  function FieldsOf(body: Body): Fields {
    match body
    case CommandBody(description, command, parameters, tags, timeout) =>
      [("description", description), ("command", Str(command)), ("parameters", parameters), ("tags", Arr(tags)), ("timeout", Int(timeout))]
    case ScriptBody(description, steps, tags, timeout) =>
      [("description", description), ("steps", Arr(steps)), ("tags", Arr(tags)), ("timeout", Int(timeout))]
  }

  /** The round trip: a body whose command has 1 to 4096 characters, or whose steps are valid, comes back
      from the object that spells it. */
  lemma ValidateRoundTrip(name: string, body: Body)
    requires 1 <= |name| <= 255
    requires body.CommandBody? ==> 1 <= |body.command| <= 4096 && (Truthy(body.parameters) || body.parameters == Arr([]))
    requires body.ScriptBody? ==> body.steps != [] && forall step :: step in body.steps ==> ValidStep(step)
    ensures Validate(if body.CommandBody? then Command else Script, name, FieldsOf(body)) == Some(body)
  {
    var fields := FieldsOf(body);
    if body.CommandBody? {
      GetAt(fields, 1, "command");
      GetAt(fields, 2, "parameters");
      GetAt(fields, 3, "tags");
      GetAt(fields, 4, "timeout");
    } else {
      GetAt(fields, 1, "steps");
      GetAt(fields, 2, "tags");
      GetAt(fields, 3, "timeout");
    }
    GetAt(fields, 0, "description");
    hide Get, ValidStep;
  }

  // ----- what the tables accept ------------------------------------------------------

  /** The columns of both tables: the CHECK on the timeout, a text or NULL as description, and an
      array of texts as tags.  No validator mirrors any of the three. */
  predicate ColumnsAccept(body: Body) {
    && 1 <= body.timeout <= 3600
    && (body.description.Null? || body.description.Str?)
    && forall tag :: tag in body.tags ==> tag.Null? || tag.Str?
  }

  /** The row that the content of an item stands for, whatever its name. */
  function Content(kind: Kind, fields: seq<(string, Json)>): Option<Body> {
    Validate(kind, "any", fields)
  }

  lemma ValidateByContent(kind: Kind, name: string, fields: seq<(string, Json)>)
    ensures Validate(kind, name, fields) == if ValidName(name) then Content(kind, fields) else None
  {
  }

  /** Content that passes validation and that the table then refuses. */
  predicate Refused(kind: Kind, fields: seq<(string, Json)>) {
    Content(kind, fields).Some? && !ColumnsAccept(Content(kind, fields).value)
  }

  /** Said of the JSON: the object spells a body whose timeout is not from 1 to 3600, or whose description or
      one of whose tags is neither null nor a text. */
  lemma RefusedIff(kind: Kind, fields: Fields)
    requires DistinctKeys(fields) && DistinctSteps(fields)
    ensures Refused(kind, fields)
            <==> exists body ::
                   && SpellsBody(kind, fields, body)
                   && (body.timeout < 1 || body.timeout > 3600
                       || !(body.description.Null? || body.description.Str?)
                       || exists tag :: tag in body.tags && !tag.Null? && !tag.Str?)
  {
    forall body ensures Content(kind, fields) == Some(body) <==> SpellsBody(kind, fields, body) {
      ValidateIff(kind, "any", fields, body);
    }
    hide Content, SpellsBody, DistinctKeys, DistinctSteps;
  }

  // ----- drafts: the rows that an installation is about to write --------------------

  datatype Draft = Draft(kind: Kind, name: string, body: Body)

  /** The valid items, in order, under their planned names. */
  function Drafts(kind: Kind, names: seq<string>, items: seq<Item>): seq<Draft>
    requires |names| == |items|
  {
    if items == [] then []
    else
      var n := |items| - 1;
      var before := Drafts(kind, names[..n], items[..n]);
      match Validate(kind, names[n], items[n].fields)
      case Some(body) => before + [Draft(kind, names[n], body)]
      case None => before
  }

  /** The planned names of the invalid items, in order. */
  function Rejects(kind: Kind, names: seq<string>, items: seq<Item>): seq<string>
    requires |names| == |items|
  {
    if items == [] then []
    else
      var n := |items| - 1;
      var before := Rejects(kind, names[..n], items[..n]);
      if Validate(kind, names[n], items[n].fields).Some? then before else before + [names[n]]
  }

  function DraftName(d: Draft): string { d.name }

  function ItemName(item: Item): string { item.name }

  lemma MappedSnoc<A, B>(f: A -> B, s: seq<A>, x: A)
    ensures Mapped(f, s + [x]) == Mapped(f, s) + [f(x)]
  {
  }

  /** Every item is either a draft or a reject, and keeps its planned name. */
  lemma {:induction false} ItemsPartition(kind: Kind, names: seq<string>, items: seq<Item>)
    requires |names| == |items|
    ensures multiset(Mapped(DraftName, Drafts(kind, names, items))) + multiset(Rejects(kind, names, items)) == multiset(names)
    ensures |Drafts(kind, names, items)| + |Rejects(kind, names, items)| == |items|
  {
    hide Validate, Mapped;
    if items != [] {
      var n := |items| - 1;
      ItemsPartition(kind, names[..n], items[..n]);
      assert names == names[..n] + [names[n]];
      var verdict := Validate(kind, names[n], items[n].fields);
      if verdict.Some? {
        MappedSnoc(DraftName, Drafts(kind, names[..n], items[..n]), Draft(kind, names[n], verdict.value));
      }
    } else {
      assert Mapped(DraftName, []) == [];
    }
  }

  /** A draft is one of the items, validated under its planned name. */
  lemma {:induction false} DraftOrigin(kind: Kind, names: seq<string>, items: seq<Item>, d: Draft)
    requires |names| == |items|
    ensures d in Drafts(kind, names, items)
            <==> d.kind == kind
                 && exists i :: 0 <= i < |names| && d.name == names[i]
                                && Validate(kind, names[i], items[i].fields) == Some(d.body)
  {
    if items != [] {
      var n := |items| - 1;
      DraftOrigin(kind, names[..n], items[..n], d);
      hide Validate;
      assert forall i :: 0 <= i < n ==> names[..n][i] == names[i] && items[..n][i] == items[i];
    }
  }

  predicate DistinctDraftNames(drafts: seq<Draft>) {
    forall i, j :: 0 <= i < j < |drafts| && drafts[i].kind == drafts[j].kind ==> drafts[i].name != drafts[j].name
  }

  lemma {:induction false} DraftsDistinct(kind: Kind, names: seq<string>, items: seq<Item>)
    requires |names| == |items|
    requires forall i, j :: 0 <= i < j < |names| ==> names[i] != names[j]
    ensures DistinctDraftNames(Drafts(kind, names, items))
    ensures forall d :: d in Drafts(kind, names, items) ==> d.kind == kind && d.name in names
  {
    hide Validate;
    if items != [] {
      var n := |items| - 1;
      DraftsDistinct(kind, names[..n], items[..n]);
      var before := Drafts(kind, names[..n], items[..n]);
      forall d | d in before ensures d.name != names[n] && d.name in names {
        var i :| 0 <= i < n && names[..n][i] == d.name;
        assert names[i] == d.name;
      }
    }
  }
}
