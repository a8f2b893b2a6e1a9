/** What whole transactions on packs promise. */
module PackTheorems {
  import opened Prelude
  import opened Names
  import opened Assets
  import opened PackContent
  import opened PackDb
  import opened PackInvariant

  // ----- install, then uninstall -----------------------------------------------------

  /** Writing drafts of a pack changes nothing but its own rows, links and mark. */
  lemma {:induction false} WrittenFrame(db: Db, p: Id, drafts: seq<Draft>)
    requires FreshAbove(db) && p in db.packs
    ensures var after := Written(db, p, drafts);
            && (forall key :: key in db.rows ==> key in after.rows && after.rows[key] == db.rows[key])
            && (forall key :: key in after.rows && after.rows[key].owner != Some(p) ==> key in db.rows)
            && (forall l :: l in db.links ==> l in after.links && after.links[l] == db.links[l])
            && (forall l :: l in after.links && after.links[l].pack != p ==> l in db.links)
            && after.packs - {p} == db.packs - {p}
            && after.packs[p].(installed := None) == db.packs[p].(installed := None)
            && after.assets == db.assets
            && FreshAbove(after)
  {
    if drafts != [] {
      var n := |drafts| - 1;
      WrittenFrame(db, p, drafts[..n]);
      PutFrame(Written(db, p, drafts[..n]), p, drafts[n]);
      hide Put, FreshAbove;
    }
  }

  lemma PutFrame(db: Db, p: Id, d: Draft)
    requires FreshAbove(db) && p in db.packs
    ensures var after := Put(db, p, d);
            && (forall key :: key in db.rows ==> key in after.rows && after.rows[key] == db.rows[key])
            && (forall key :: key in after.rows && after.rows[key].owner != Some(p) ==> key in db.rows)
            && (forall l :: l in db.links ==> l in after.links && after.links[l] == db.links[l])
            && (forall l :: l in after.links && after.links[l].pack != p ==> l in db.links)
            && after.packs - {p} == db.packs - {p}
            && after.packs[p].(installed := None) == db.packs[p].(installed := None)
            && after.assets == db.assets
            && FreshAbove(after)
  {
  }

  /** A pack without links owns no row. */
  lemma NotInstalledOwnsNothing(db: Db, p: Id)
    requires Inv(db) && p in db.packs && db.packs[p].installed.None?
    ensures forall key :: key in db.rows ==> db.rows[key].owner != Some(p)
    ensures forall l :: l in db.links ==> db.links[l].pack != p
  {
    TargetsAreLinks(db);
    assert !HasLink(db, p);
  }

  lemma TargetsAreLinks(db: Db)
    ensures forall p, key :: IsTarget(db, p, key) ==> HasLink(db, p)
  {
  }

  /** Uninstalling undoes an installation: all five tables are what they were. */
  lemma InstallThenUninstallRestores(db: Db, p: Id, mode: OnConflict)
    requires Inv(db) && Install(db, p, mode).Ok?
    ensures var after := Uninstalled(Install(db, p, mode).value.0, p);
            after == db.(next := after.next)
  {
    var drafts := Prepare(db.rows, db.packs[p], mode).value.drafts;
    InstallKeepsInv(db, p, mode);
    InvIsFresh(db);
    NotInstalledOwnsNothing(db, p);
    hide Inv, Prepare, Written, FreshAbove;
    WrittenThenUninstalled(db, p, drafts);
  }

  lemma WrittenThenUninstalled(db: Db, p: Id, drafts: seq<Draft>)
    requires FreshAbove(db) && p in db.packs && db.packs[p].installed.None?
    requires Inv(Written(db, p, drafts))
    requires forall key :: key in db.rows ==> db.rows[key].owner != Some(p)
    requires forall l :: l in db.links ==> db.links[l].pack != p
    ensures var after := Uninstalled(Written(db, p, drafts), p);
            after == db.(next := after.next)
  {
    PacksComeBack(db, p, drafts);
    RowsComeBack(db, p, drafts);
    LinksComeBack(db, p, drafts);
    hide *;
  }

  lemma PacksComeBack(db: Db, p: Id, drafts: seq<Draft>)
    requires FreshAbove(db) && p in db.packs && db.packs[p].installed.None?
    ensures var after := Uninstalled(Written(db, p, drafts), p);
            after.packs == db.packs && after.assets == db.assets
  {
    WrittenFrame(db, p, drafts);
    UninstalledPacks(Written(db, p, drafts), p);
    hide Written, FreshAbove;
    RestoredPacks(db.packs, Uninstalled(Written(db, p, drafts), p).packs, p);
  }

  lemma RowsComeBack(db: Db, p: Id, drafts: seq<Draft>)
    requires FreshAbove(db) && p in db.packs && Inv(Written(db, p, drafts))
    requires forall key :: key in db.rows ==> db.rows[key].owner != Some(p)
    ensures Uninstalled(Written(db, p, drafts), p).rows == db.rows
  {
    var mid := Written(db, p, drafts);
    WrittenFrame(db, p, drafts);
    UninstallRemovesOwnedRows(mid, p);
    hide *;
    RestoredRows(db.rows, mid.rows, Uninstalled(mid, p).rows, p);
  }

  lemma LinksComeBack(db: Db, p: Id, drafts: seq<Draft>)
    requires FreshAbove(db) && p in db.packs && Inv(Written(db, p, drafts))
    requires forall l :: l in db.links ==> db.links[l].pack != p
    ensures Uninstalled(Written(db, p, drafts), p).links == db.links
  {
    var mid := Written(db, p, drafts);
    WrittenFrame(db, p, drafts);
    UninstallRemovesOwnedRows(mid, p);
    hide *;
    RestoredLinks(db.links, mid.links, Uninstalled(mid, p).links, p);
  }

  lemma RestoredRows(before: map<Key, Row>, mid: map<Key, Row>, after: map<Key, Row>, p: Id)
    requires forall key :: key in before ==> before[key].owner != Some(p)
    requires forall key :: key in before ==> key in mid && mid[key] == before[key]
    requires forall key :: key in mid && mid[key].owner != Some(p) ==> key in before
    requires forall key :: key in after <==> key in mid && mid[key].owner != Some(p)
    requires forall key :: key in after ==> after[key] == mid[key]
    ensures after == before
  {
    SameMap(before, after);
  }

  lemma RestoredLinks(before: map<Id, Link>, mid: map<Id, Link>, after: map<Id, Link>, p: Id)
    requires forall l :: l in before ==> before[l].pack != p
    requires forall l :: l in before ==> l in mid && mid[l] == before[l]
    requires forall l :: l in mid && mid[l].pack != p ==> l in before
    requires forall l :: l in after <==> l in mid && mid[l].pack != p
    requires forall l :: l in after ==> after[l] == mid[l]
    ensures after == before
  {
    SameMap(before, after);
  }

  lemma SameMap<K, V>(m: map<K, V>, n: map<K, V>)
    requires forall k :: k in m ==> k in n && n[k] == m[k]
    requires forall k :: k in n ==> k in m
    ensures m == n
  {
  }

  lemma UninstalledPacks(db: Db, p: Id)
    requires p in db.packs
    ensures Uninstalled(db, p).packs == db.packs[p := db.packs[p].(installed := None)]
  {
  }

  lemma RestoredPacks(before: map<Id, Pack>, after: map<Id, Pack>, p: Id)
    requires p in before && p in after && before[p] == after[p]
    requires after - {p} == before - {p}
    ensures after == before
  {
    forall q | q in before && q != p ensures q in after && after[q] == before[q] {
      assert q in before - {p} && q in after - {p};
      assert (before - {p})[q] == before[q] && (after - {p})[q] == after[q];
    }
    forall q | q in after && q != p ensures q in before {
      assert q in after - {p};
    }
  }

  // ----- when an installation succeeds -------------------------------------------------

  predicate NoClash(rows: map<Key, Row>, kind: Kind, items: seq<Item>) {
    && (forall i, j :: 0 <= i < j < |items| ==> items[i].name != items[j].name)
    && (forall i, key :: 0 <= i < |items| && key in rows && key.kind == kind ==> rows[key].name != items[i].name)
  }

  lemma NoClashPlan(rows: map<Key, Row>, kind: Kind, items: seq<Item>)
    ensures NoClash(rows, kind, items)
            <==> Distinct(Mapped(ItemName, items)) && Range(Mapped(ItemName, items)) !! TakenNames(rows, kind)
  {
    var names := Mapped(ItemName, items);
    assert forall i :: 0 <= i < |items| ==> names[i] == items[i].name;
    if NoClash(rows, kind, items) {
      forall x | x in Range(names) ensures x !in TakenNames(rows, kind) {
        var i :| 0 <= i < |names| && names[i] == x;
        assert x == items[i].name;
      }
    } else if Distinct(names) {
      var i, key :| 0 <= i < |items| && key in rows && key.kind == kind && rows[key].name == items[i].name;
      assert rows[key].name in TakenNames(rows, kind) && names[i] in Range(names);
    }
  }

  /** Some item passes validation under its name, and the table refuses its content. */
  predicate SomeRefused(kind: Kind, names: seq<string>, items: seq<Item>)
    requires |names| == |items|
  {
    exists i :: 0 <= i < |items| && ValidName(names[i]) && Refused(kind, items[i].fields)
  }

  /** With `fail`, an installation succeeds iff no name clashes and no item has content that validation
      accepts and the table refuses; an item that fails validation never stops it. */
  lemma FailModeInstallIff(db: Db, p: Id)
    requires p in db.packs && db.packs[p].installed.None?
    ensures Install(db, p, Fail).Ok?
            <==> NoClash(db.rows, Command, db.packs[p].commands) && NoClash(db.rows, Script, db.packs[p].scripts)
                 && !SomeRefused(Command, Mapped(ItemName, db.packs[p].commands), db.packs[p].commands)
                 && !SomeRefused(Script, Mapped(ItemName, db.packs[p].scripts), db.packs[p].scripts)
  {
    var pack := db.packs[p];
    var cs, ss := Mapped(ItemName, pack.commands), Mapped(ItemName, pack.scripts);
    PlanSucceedsIff(cs, TakenNames(db.rows, Command), Fail);
    PlanSucceedsIff(ss, TakenNames(db.rows, Script), Fail);
    NoClashPlan(db.rows, Command, pack.commands);
    NoClashPlan(db.rows, Script, pack.scripts);
    FlushIff(Command, cs, pack.commands);
    FlushIff(Script, ss, pack.scripts);
    hide Plan, TakenNames, Distinct, Range, Drafts, Rejects, SomeRefused, Mapped, NoClash;
    FlushAppend(Drafts(Command, cs, pack.commands), Drafts(Script, ss, pack.scripts));
  }

  /** The name of this item is the first to clash: a row of the table has it, or an earlier item. */
  predicate FirstClash(rows: map<Key, Row>, kind: Kind, items: seq<Item>, name: string) {
    exists i :: 0 <= i < |items| && items[i].name == name
                && !NoClash(rows, kind, items[..i + 1]) && NoClash(rows, kind, items[..i])
  }

  /** Which error an installation ends with: an unknown pack, one that is installed already, under `fail` the
      first name that clashes, commands before scripts, and otherwise content that the table refuses. */
  lemma InstallErrorIs(db: Db, p: Id, mode: OnConflict)
    requires Install(db, p, mode).Err?
    ensures match Install(db, p, mode).error
            case PackNotFound => p !in db.packs
            case AlreadyInstalled => p in db.packs && db.packs[p].installed.Some?
            case NameClash(kind, name) =>
              && p in db.packs && db.packs[p].installed.None? && mode == Fail
              && FirstClash(db.rows, kind, if kind == Command then db.packs[p].commands else db.packs[p].scripts, name)
              && (kind == Script ==> NoClash(db.rows, Command, db.packs[p].commands))
            case IntegrityError =>
              && p in db.packs && db.packs[p].installed.None?
              && (mode == Fail ==> NoClash(db.rows, Command, db.packs[p].commands) && NoClash(db.rows, Script, db.packs[p].scripts))
            case _ => false
  {
    if p in db.packs && db.packs[p].installed.None? {
      var pack := db.packs[p];
      var cs, ss := Mapped(ItemName, pack.commands), Mapped(ItemName, pack.scripts);
      PlanSucceedsIff(cs, TakenNames(db.rows, Command), mode);
      PlanSucceedsIff(ss, TakenNames(db.rows, Script), mode);
      NoClashPlan(db.rows, Command, pack.commands);
      NoClashPlan(db.rows, Script, pack.scripts);
      if Plan(cs, TakenNames(db.rows, Command), mode).Err? {
        ClashOfItems(db.rows, Command, pack.commands);
      } else if Plan(ss, TakenNames(db.rows, Script), mode).Err? {
        ClashOfItems(db.rows, Script, pack.scripts);
      }
      hide Plan, TakenNames, Distinct, Range, Drafts, Rejects, Mapped, NoClash, FirstClash;
    }
  }

  lemma ClashOfItems(rows: map<Key, Row>, kind: Kind, items: seq<Item>)
    requires Plan(Mapped(ItemName, items), TakenNames(rows, kind), Fail).Err?
    ensures FirstClash(rows, kind, items, Plan(Mapped(ItemName, items), TakenNames(rows, kind), Fail).error)
  {
    var names, taken := Mapped(ItemName, items), TakenNames(rows, kind);
    ClashIsFirst(names, taken);
    hide Plan;
    var i :| 0 <= i < |names| && names[i] == Plan(names, taken, Fail).error && ClashesAt(names, taken, i)
             && forall j :: 0 <= j < i ==> !ClashesAt(names, taken, j);
    assert forall j :: 0 <= j < |items| ==> names[j] == items[j].name;
    if names[i] in taken {
      var key :| key in rows && key.kind == kind && rows[key].name == names[i];
      assert items[..i + 1][i].name == rows[key].name;
    } else {
      var j :| 0 <= j < i && names[j] == names[i];
      assert items[..i + 1][i].name == items[..i + 1][j].name;
    }
    hide NoClash, ClashesAt, TakenNames, Mapped;
    PrefixNoClash(rows, kind, items, i);
  }

  lemma PrefixNoClash(rows: map<Key, Row>, kind: Kind, items: seq<Item>, i: nat)
    requires i <= |items|
    requires forall j :: 0 <= j < i ==> !ClashesAt(Mapped(ItemName, items), TakenNames(rows, kind), j)
    ensures NoClash(rows, kind, items[..i])
  {
    var names, taken := Mapped(ItemName, items), TakenNames(rows, kind);
    assert forall j :: 0 <= j < |items| ==> names[j] == items[j].name;
    forall a, b | 0 <= a < b < i ensures items[a].name != items[b].name {
      assert !ClashesAt(names, taken, b);
      assert names[a] != names[b];
    }
    forall a, key | 0 <= a < i && key in rows && key.kind == kind ensures rows[key].name != items[a].name {
      assert !ClashesAt(names, taken, a);
      assert rows[key].name in taken;
    }
  }

  /** The names that `rename` gives to items, from those in the table. */
  function Renamed(rows: map<Key, Row>, kind: Kind, items: seq<Item>): (names: seq<string>)
    ensures |names| == |items|
  {
    PlanSucceedsIff(Mapped(ItemName, items), TakenNames(rows, kind), Rename);
    Plan(Mapped(ItemName, items), TakenNames(rows, kind), Rename).value
  }

  /** With `rename`, names never stop an installation: it succeeds iff no item whose new name is from 1
      to 255 characters long has content that validation accepts and the table refuses. */
  lemma RenameModeInstallIff(db: Db, p: Id)
    requires p in db.packs && db.packs[p].installed.None?
    ensures Install(db, p, Rename).Ok?
            <==> !SomeRefused(Command, Renamed(db.rows, Command, db.packs[p].commands), db.packs[p].commands)
                 && !SomeRefused(Script, Renamed(db.rows, Script, db.packs[p].scripts), db.packs[p].scripts)
  {
    var pack := db.packs[p];
    var cs, ss := Renamed(db.rows, Command, pack.commands), Renamed(db.rows, Script, pack.scripts);
    PlanSucceedsIff(Mapped(ItemName, pack.commands), TakenNames(db.rows, Command), Rename);
    PlanSucceedsIff(Mapped(ItemName, pack.scripts), TakenNames(db.rows, Script), Rename);
    assert Prepare(db.rows, pack, Rename).value.commandNames == cs && Prepare(db.rows, pack, Rename).value.scriptNames == ss;
    hide Plan, TakenNames, Drafts, Rejects, SomeRefused, Mapped, Renamed;
    FlushIff(Command, cs, pack.commands);
    FlushIff(Script, ss, pack.scripts);
    FlushAppend(Drafts(Command, cs, pack.commands), Drafts(Script, ss, pack.scripts));
  }

  /** Whatever is in the tables, `rename` installs a pack without refused content. */
  lemma RenameInstallsCleanContent(db: Db, p: Id)
    requires p in db.packs && db.packs[p].installed.None?
    requires forall item :: item in db.packs[p].commands ==> !Refused(Command, item.fields)
    requires forall item :: item in db.packs[p].scripts ==> !Refused(Script, item.fields)
    ensures Install(db, p, Rename).Ok?
  {
    RenameModeInstallIff(db, p);
    hide Install, Refused, Renamed;
  }

  lemma FlushIff(kind: Kind, names: seq<string>, items: seq<Item>)
    requires |names| == |items|
    ensures FlushAccepts(Drafts(kind, names, items)) <==> !SomeRefused(kind, names, items)
  {
    forall i | 0 <= i < |items|
      ensures Validate(kind, names[i], items[i].fields) == if ValidName(names[i]) then Content(kind, items[i].fields) else None
    {
      ValidateByContent(kind, names[i], items[i].fields);
    }
    hide Validate, Content, ColumnsAccept, Drafts, ValidName;
    forall d: Draft ensures d in Drafts(kind, names, items)
      <==> d.kind == kind
           && exists i :: 0 <= i < |names| && d.name == names[i]
                          && Validate(kind, names[i], items[i].fields) == Some(d.body)
    {
      DraftOrigin(kind, names, items, d);
    }
    forall i | 0 <= i < |items| && Validate(kind, names[i], items[i].fields).Some?
      ensures Draft(kind, names[i], Validate(kind, names[i], items[i].fields).value) in Drafts(kind, names, items)
    {
    }
  }

  lemma FlushAppend(cs: seq<Draft>, ss: seq<Draft>)
    ensures FlushAccepts(cs + ss) <==> FlushAccepts(cs) && FlushAccepts(ss)
  {
    hide ColumnsAccept;
    assert forall d :: d in cs || d in ss ==> d in cs + ss;
  }

  /** A pack of two commands: one that installs alone, and one with an extra field. */
  function DemoPack(extra: (string, Json)): Pack {
    Pack(None, "demo", "1.0", None,
         [Item("good", [("command", Str("uptime"))]), Item("odd", [("command", Str("uptime")), extra])], [], None)
  }

  lemma OneRefusedStopsTheRest(extra: (string, Json))
    requires Refused(Command, [("command", Str("uptime")), extra])
    ensures ValidateCommand("good", DemoPack(extra).commands[0].fields).Some?
    ensures ValidateCommand("odd", DemoPack(extra).commands[1].fields).Some?
    ensures Install(Db(map[0 := DemoPack(extra)], map[], map[], map[], 1), 0, Rename) == Err(IntegrityError)
  {
    var pack := DemoPack(extra);
    var db := Db(map[0 := pack], map[], map[], map[], 1);
    var items := pack.commands;
    assert items[0].fields[1..] == [];
    ValidateByContent(Command, "odd", items[1].fields);
    assert Mapped(ItemName, items) == ["good", "odd"];
    RenameModeInstallIff(db, 0);
    assert Distinct(["good", "odd"]);
    PlanSucceedsIff(["good", "odd"], {}, Rename);
    assert TakenNames(db.rows, Command) == {};
    assert Renamed(db.rows, Command, items) == ["good", "odd"];
    assert ValidName(["good", "odd"][1]) && Refused(Command, items[1].fields);
    PlanSucceedsIff(Mapped(ItemName, []), TakenNames(db.rows, Script), Rename);
    hide Validate, ValidateCommand, Content, ColumnsAccept;
  }

  /** Three values that validation accepts and the table refuses; each takes the valid item beside it
      down: a timeout of 0, a description that is a number, a tag that is one. */
  lemma ValidatedItemStopsTheRest(extra: (string, Json))
    requires extra in {("timeout", Int(0)), ("description", Int(5)), ("tags", Arr([Int(1)]))}
    ensures ValidateCommand("good", DemoPack(extra).commands[0].fields).Some?
    ensures ValidateCommand("odd", DemoPack(extra).commands[1].fields).Some?
    ensures Install(Db(map[0 := DemoPack(extra)], map[], map[], map[], 1), 0, Rename) == Err(IntegrityError)
  {
    var command := ("command", Str("uptime"));
    forall key: string ensures Get([command, extra], key) ==
      if key == "command" then Some(Str("uptime")) else if key == extra.0 then Some(extra.1) else None
    {
      assert [command, extra][1..] == [extra] && [extra][1..] == [];
      assert Get([extra], key) == if key == extra.0 then Some(extra.1) else None;
    }
    hide Get;
    assert Refused(Command, [command, extra]) by {
      var body := Content(Command, [command, extra]).value;
      assert extra == ("tags", Arr([Int(1)])) ==> body.tags == [Int(1)] && Int(1) in body.tags;
    }
    OneRefusedStopsTheRest(extra);
  }

  // ----- what an installation reports -----------------------------------------------------

  /** How many results speak of this name in this table. */
  function Count(results: seq<ItemResult>, kind: Kind, name: string): nat {
    if results == [] then 0
    else
      var last := results[|results| - 1];
      Count(results[..|results| - 1], kind, name) + (if last.kind == kind && last.name == name then 1 else 0)
  }

  lemma {:induction false} CountAppend(a: seq<ItemResult>, b: seq<ItemResult>, kind: Kind, name: string)
    ensures Count(a + b, kind, name) == Count(a, kind, name) + Count(b, kind, name)
  {
    if b == [] {
      assert a + b == a;
    } else {
      var n := |b| - 1;
      assert (a + b)[..|a + b| - 1] == a + b[..n];
      CountAppend(a, b[..n], kind, name);
    }
  }

  lemma {:induction false} CountSuccesses(drafts: seq<Draft>, base: Id, kind: Kind, name: string, k: Kind)
    requires forall d :: d in drafts ==> d.kind == k
    ensures Count(Successes(drafts, base), kind, name)
            == if k == kind then multiset(Mapped(DraftName, drafts))[name] else 0
  {
    if drafts != [] {
      var n := |drafts| - 1;
      CountSuccesses(drafts[..n], base, kind, name, k);
      assert Successes(drafts, base)[..n] == Successes(drafts[..n], base);
      assert Mapped(DraftName, drafts) == Mapped(DraftName, drafts[..n]) + [drafts[n].name];
    }
  }

  lemma {:induction false} CountFailures(names: seq<string>, kind: Kind, name: string, k: Kind)
    ensures Count(Failures(k, names), kind, name) == if k == kind then multiset(names)[name] else 0
  {
    if names != [] {
      var n := |names| - 1;
      CountFailures(names[..n], kind, name, k);
      assert Failures(k, names)[..n] == Failures(k, names[..n]);
      assert names == names[..n] + [names[n]];
    }
  }

  lemma {:induction false} DistinctCounts(s: seq<string>, x: string)
    requires Distinct(s)
    ensures multiset(s)[x] == if x in s then 1 else 0
  {
    if s != [] {
      var n := |s| - 1;
      assert s == s[..n] + [s[n]];
      DistinctCounts(s[..n], x);
    }
  }

  /** Every content item appears in exactly one result, under its planned name. */
  lemma ReportCoversItems(rows: map<Key, Row>, pack: Pack, mode: OnConflict, base: Id, kind: Kind, name: string)
    requires Prepare(rows, pack, mode).Ok?
    ensures var agenda := Prepare(rows, pack, mode).value;
            var report := Report(agenda, base);
            && report.succeeded + report.failed == |report.results| == |pack.commands| + |pack.scripts|
            && var planned := if kind == Command then agenda.commandNames else agenda.scriptNames;
               Count(report.results, kind, name) == if name in planned then 1 else 0
  {
    var agenda := Prepare(rows, pack, mode).value;
    var cs := Drafts(Command, agenda.commandNames, pack.commands);
    var ss := Drafts(Script, agenda.scriptNames, pack.scripts);
    var cr := Rejects(Command, agenda.commandNames, pack.commands);
    var sr := Rejects(Script, agenda.scriptNames, pack.scripts);
    PlanIsSound(Mapped(ItemName, pack.commands), TakenNames(rows, Command), mode);
    PlanIsSound(Mapped(ItemName, pack.scripts), TakenNames(rows, Script), mode);
    hide Plan, TakenNames, Drafts, Rejects, Mapped;
    ItemsPartition(Command, agenda.commandNames, pack.commands);
    ItemsPartition(Script, agenda.scriptNames, pack.scripts);
    DraftsDistinct(Command, agenda.commandNames, pack.commands);
    DraftsDistinct(Script, agenda.scriptNames, pack.scripts);
    DistinctCounts(agenda.commandNames, name);
    DistinctCounts(agenda.scriptNames, name);
    CountReport(cs, ss, cr, sr, base, kind, name);
  }

  /** The successes come first; they alone have an id. */
  lemma SuccessesHaveIds(rows: map<Key, Row>, pack: Pack, mode: OnConflict, base: Id, i: nat)
    requires Prepare(rows, pack, mode).Ok?
    requires i < |Report(Prepare(rows, pack, mode).value, base).results|
    ensures var report := Report(Prepare(rows, pack, mode).value, base);
            report.results[i].id.Some? <==> i < report.succeeded
  {
    hide Plan, TakenNames, Drafts, Rejects, Mapped;
  }

  lemma SuccessesAppend(cs: seq<Draft>, ss: seq<Draft>, base: Id)
    ensures Successes(cs + ss, base) == Successes(cs, base) + Successes(ss, base + 2 * |cs|)
  {
  }

  lemma CountReport(cs: seq<Draft>, ss: seq<Draft>, cr: seq<string>, sr: seq<string>, base: Id, kind: Kind, name: string)
    requires forall d :: d in cs ==> d.kind == Command
    requires forall d :: d in ss ==> d.kind == Script
    ensures Count(Successes(cs + ss, base) + (Failures(Command, cr) + Failures(Script, sr)), kind, name)
            == if kind == Command then multiset(Mapped(DraftName, cs))[name] + multiset(cr)[name]
               else multiset(Mapped(DraftName, ss))[name] + multiset(sr)[name]
  {
    SuccessesAppend(cs, ss, base);
    hide Successes, Failures, Mapped, Count;
    CountAppend(Successes(cs + ss, base), Failures(Command, cr) + Failures(Script, sr), kind, name);
    CountAppend(Failures(Command, cr), Failures(Script, sr), kind, name);
    CountFailures(cr, kind, name, Command);
    CountFailures(sr, kind, name, Script);
    CountAppend(Successes(cs, base), Successes(ss, base + 2 * |cs|), kind, name);
    CountSuccesses(cs, base, kind, name, Command);
    CountSuccesses(ss, base + 2 * |cs|, kind, name, Script);
  }

  /** Each reported success is a row of the pack, with the reported id and name. */
  lemma {:induction false} ReportedRowsExist(db: Db, p: Id, drafts: seq<Draft>, i: nat)
    requires FreshAbove(db) && p in db.packs && i < |drafts|
    ensures var result := Successes(drafts, db.next)[i];
            var key := Key(result.kind, result.id.value);
            && key in Written(db, p, drafts).rows
            && Written(db, p, drafts).rows[key] == Row(result.name, drafts[i].body, Some(p))
  {
    var n := |drafts| - 1;
    WrittenFrame(db, p, drafts[..n]);
    PutFrame(Written(db, p, drafts[..n]), p, drafts[n]);
    if i < n {
      ReportedRowsExist(db, p, drafts[..n], i);
    }
  }

  // ----- update ---------------------------------------------------------------------------

  /** The rows of a pack without their ids: what a user sees of an installation. */
  function Visible(db: Db, p: Id): set<Draft> {
    set key | key in db.rows && db.rows[key].owner == Some(p) :: Draft(key.kind, db.rows[key].name, db.rows[key].body)
  }

  lemma {:induction false} WrittenVisible(db: Db, p: Id, drafts: seq<Draft>)
    requires FreshAbove(db) && p in db.packs
    requires forall key :: key in db.rows ==> db.rows[key].owner != Some(p)
    ensures Visible(Written(db, p, drafts), p) == Range(drafts)
  {
    if drafts == [] {
      assert Visible(db, p) == {};
    } else {
      var n := |drafts| - 1;
      assert FreshAbove(Written(db, p, drafts[..n])) by {
        WrittenFrame(db, p, drafts[..n]);
      }
      WrittenVisible(db, p, drafts[..n]);
      PutVisible(Written(db, p, drafts[..n]), p, drafts[n]);
      hide Put, Visible, FreshAbove, Range;
      assert drafts == drafts[..n] + [drafts[n]];
      RangeSnoc(drafts[..n], drafts[n]);
    }
  }

  lemma PutVisible(db: Db, p: Id, d: Draft)
    requires FreshAbove(db) && p in db.packs
    ensures Visible(Put(db, p, d), p) == Visible(db, p) + {d}
  {
    var after := Put(db, p, d);
    var key := Key(d.kind, db.next);
    assert key !in db.rows && key in after.rows;
    forall v | v in Visible(db, p) ensures v in Visible(after, p) {
      var k :| k in db.rows && db.rows[k].owner == Some(p) && v == Draft(k.kind, db.rows[k].name, db.rows[k].body);
      assert k in after.rows && after.rows[k] == db.rows[k];
    }
  }

  /** The names that an installation plans for the items of one table. */
  function Planned(rows: map<Key, Row>, kind: Kind, items: seq<Item>, mode: OnConflict): (names: seq<string>)
    ensures |names| == |items|
  {
    if mode == Rename then Renamed(rows, kind, items) else Mapped(ItemName, items)
  }

  ghost predicate Readable(items: seq<Item>) {
    forall item :: item in items ==> DistinctKeys(item.fields) && DistinctSteps(item.fields)
  }

  /** Some item spells this body, under this planned name of 1 to 255 characters. */
  ghost predicate Spelled(kind: Kind, items: seq<Item>, names: seq<string>, name: string, body: Body)
    requires |names| == |items|
  {
    1 <= |name| <= 255 && exists i :: 0 <= i < |items| && names[i] == name && SpellsBody(kind, items[i].fields, body)
  }

  /** What an installation writes, said of the pack's JSON: the rows of the pack are exactly the bodies that
      its items spell, each under its planned name. */
  lemma InstalledRowsSpellItems(db: Db, p: Id, mode: OnConflict, kind: Kind, name: string, body: Body)
    requires Inv(db) && Install(db, p, mode).Ok?
    requires Readable(db.packs[p].commands) && Readable(db.packs[p].scripts)
    ensures var after, pack := Install(db, p, mode).value.0, db.packs[p];
            var items := if kind == Command then pack.commands else pack.scripts;
            (exists key :: key in after.rows && key.kind == kind && after.rows[key] == Row(name, body, Some(p)))
            <==> Spelled(kind, items, Planned(db.rows, kind, items, mode), name, body)
  {
    var pack, agenda := db.packs[p], Prepare(db.rows, db.packs[p], mode).value;
    var after, d := Install(db, p, mode).value.0, Draft(kind, name, body);
    InvIsFresh(db);
    NotInstalledOwnsNothing(db, p);
    PlannedNames(db.rows, pack, mode);
    var cs, ss := Drafts(Command, agenda.commandNames, pack.commands), Drafts(Script, agenda.scriptNames, pack.scripts);
    hide Inv, Prepare, FreshAbove, Written, Visible, Planned, Drafts, Rejects, FlushAccepts, Readable;
    WrittenVisible(db, p, cs + ss);
    assert d in Visible(after, p) <==> d in cs || d in ss;
    SpelledDrafts(Command, pack.commands, agenda.commandNames, d);
    SpelledDrafts(Script, pack.scripts, agenda.scriptNames, d);
    VisibleIff(after, p, d);
    hide Install, Spelled;
  }

  /** What else an installation does: nothing to rows, links, packs and files of others; the pack is marked
      with its version iff it got a row, and is otherwise as it was. */
  lemma InstallTouchesOnlyItsPack(db: Db, p: Id, mode: OnConflict)
    requires Inv(db) && Install(db, p, mode).Ok?
    ensures var (after, report) := Install(db, p, mode).value;
            && (forall key :: key in db.rows ==> key in after.rows && after.rows[key] == db.rows[key])
            && (forall key :: key in after.rows && key !in db.rows ==> after.rows[key].owner == Some(p))
            && (forall l :: l in db.links ==> l in after.links && after.links[l] == db.links[l])
            && (forall l :: l in after.links && l !in db.links ==> after.links[l].pack == p)
            && after.packs.Keys == db.packs.Keys
            && (forall q :: q in db.packs && q != p ==> after.packs[q] == db.packs[q])
            && after.packs[p] == db.packs[p].(installed := if report.succeeded > 0 then Some(db.packs[p].version) else None)
            && after.assets == db.assets
  {
    var drafts := Prepare(db.rows, db.packs[p], mode).value.drafts;
    InvIsFresh(db);
    hide Inv, Prepare, FreshAbove, Put;
    WrittenFrame(db, p, drafts);
    WrittenMark(db, p, drafts);
    OtherPacks(db.packs, Written(db, p, drafts).packs, p);
    hide Written;
  }

  lemma OtherPacks(before: map<Id, Pack>, after: map<Id, Pack>, p: Id)
    requires p in before && p in after && after - {p} == before - {p}
    ensures after.Keys == before.Keys && forall q :: q in before && q != p ==> after[q] == before[q]
  {
    forall q ensures q in before <==> q in after {
      assert q in before - {p} <==> q in after - {p};
    }
    forall q | q in before && q != p ensures after[q] == before[q] {
      assert (after - {p})[q] == (before - {p})[q];
    }
  }

  lemma {:induction false} WrittenMark(db: Db, p: Id, drafts: seq<Draft>)
    requires p in db.packs
    ensures Written(db, p, drafts).packs[p]
            == if drafts == [] then db.packs[p] else db.packs[p].(installed := Some(db.packs[p].version))
  {
    if drafts != [] {
      WrittenMark(db, p, drafts[..|drafts| - 1]);
    }
  }

  /** Deleting a pack, said of the tables: its rows, links and files go, and nothing else does. */
  lemma DeleteRemovesOnlyItsPack(db: Db, p: Id)
    requires Inv(db) && p in db.packs
    ensures var after := Deleted(db, p);
            && after.packs == db.packs - {p}
            && (forall key :: key in after.rows <==> key in db.rows && db.rows[key].owner != Some(p))
            && (forall key :: key in after.rows ==> after.rows[key] == db.rows[key])
            && (forall l :: l in after.links <==> l in db.links && db.links[l].pack != p)
            && (forall l :: l in after.links ==> after.links[l] == db.links[l])
            && (forall a: (Id, string) :: a in after.assets <==> a in db.assets && a.0 != p)
            && (forall a :: a in after.assets ==> after.assets[a] == db.assets[a])
  {
    UninstallRemovesOwnedRows(db, p);
    UninstalledPacks(db, p);
    hide Inv, Uninstalled;
  }

  /** Which manifests are registered, and what stands in the way of the others. */
  lemma CreateIff(db: Db, m: Manifest)
    ensures match Create(db, m)
            case Ok(_) => ValidPackId(m.slug) && Acceptable(m.uploads) && NoSuchPack(db, m)
            case Err(e) =>
              && (e == InvalidPackId <==> !ValidPackId(m.slug))
              && (e == InvalidAssets <==> ValidPackId(m.slug) && !Acceptable(m.uploads))
              && (e == DuplicatePack <==> ValidPackId(m.slug) && Acceptable(m.uploads) && !NoSuchPack(db, m))
              && e in {InvalidPackId, InvalidAssets, DuplicatePack}
  {
    hide ValidPackId, Acceptable;
  }

  predicate NoSuchPack(db: Db, m: Manifest) {
    forall p :: p in db.packs && db.packs[p].slug == m.slug ==> db.packs[p].registry != m.registry
  }

  /** The form of a pack id: a letter or a digit, and up to 99 more characters, which may be `_`, `.` and `-`
      as well. */
  lemma PackIds(slug: string)
    ensures ValidPackId("Z9_.-") && forall c :: c in {'a', 'm', 'z', 'A', 'M', 'Z', '0', '5', '9'} ==> ValidPackId([c])
    ensures forall c :: c in {' ', '/', '\\', '_', '.', '-', ':', '@', '[', '`', '{', '\n'} ==> !ValidPackId([c])
    ensures forall c :: c in {' ', '/', '\\', ':', '@', '[', '`', '{', '\n'} ==> !ValidPackId(['a', c])
    ensures !ValidPackId("") && (|slug| > 100 ==> !ValidPackId(slug))
    ensures |slug| <= 100 && slug != "" && (forall c :: c in slug ==> 'a' <= c <= 'z') ==> ValidPackId(slug)
  {
    assert slug != "" ==> slug[0] in slug;
    forall c | c in {' ', '/', '\\', ':', '@', '[', '`', '{', '\n'} ensures !ValidPackId(['a', c]) {
      assert c in ['a', c];
    }
  }

  /** What users do to rows: a new row, or a new name and body of an old one, iff no other row of the table
      has the name and the columns accept the body; owners and all other rows stay. */
  lemma UserEditsAre(db: Db, key: Key, name: string, body: Body)
    requires Inv(db)
    ensures (exists k :: k in db.rows && k.kind == key.kind && db.rows[k].name == name) || !ColumnsAccept(body)
            <==> WithRow(db, key.kind, name, body) == Err(IntegrityError)
    ensures WithRow(db, key.kind, name, body).Ok? ==>
              var after, made := WithRow(db, key.kind, name, body).value, Key(key.kind, db.next);
              && made !in db.rows && after.(next := db.next) == db.(rows := db.rows[made := Row(name, body, None)])
    ensures key in db.rows && ((exists k :: k in db.rows && k != key && k.kind == key.kind && db.rows[k].name == name) || !ColumnsAccept(body))
            <==> Edited(db, key, name, body) == Err(IntegrityError)
    ensures Edited(db, key, name, body).Ok? ==>
              Edited(db, key, name, body).value
              == if key in db.rows then db.(rows := db.rows[key := Row(name, body, db.rows[key].owner)]) else db
  {
    InvIsFresh(db);
    TakenIff(db.rows, key.kind, name);
    TakenIff(db.rows - {key}, key.kind, name);
    assert forall k :: k in db.rows - {key} <==> k in db.rows && k != key;
    hide Inv, TakenNames, ColumnsAccept;
  }

  lemma TakenIff(rows: map<Key, Row>, kind: Kind, name: string)
    ensures name in TakenNames(rows, kind) <==> exists key :: key in rows && key.kind == kind && rows[key].name == name
  {
  }

  /** Deleting a registry makes its packs local, and is refused iff one of them has the slug of a local pack. */
  lemma DeleteRegistryIs(db: Db, r: Id)
    ensures RegistryDeleted(db, r).Err? <==>
              exists p, q :: p in db.packs && q in db.packs && db.packs[p].registry == Some(r) && db.packs[q].registry == None
                             && db.packs[p].slug == db.packs[q].slug
    ensures RegistryDeleted(db, r).Ok? ==>
              var after := RegistryDeleted(db, r).value;
              && after.(packs := db.packs) == db && after.packs.Keys == db.packs.Keys
              && forall p :: p in db.packs ==>
                   && after.packs[p].(registry := db.packs[p].registry) == db.packs[p]
                   && after.packs[p].registry == (if db.packs[p].registry == Some(r) then None else db.packs[p].registry)
  {
  }

  /** A patch changes the two fields that are given, of this pack. */
  lemma PatchIs(db: Db, p: Id, version: Option<string>, sha: Option<string>)
    requires p in db.packs
    ensures var after := Patched(db, p, version, sha);
            && after.(packs := db.packs) == db && after.packs - {p} == db.packs - {p} && p in after.packs
            && var (before, patched) := (db.packs[p], after.packs[p]);
               && patched.version == (match version case Some(v) => v case None => before.version)
               && patched.manifestSha == (match sha case Some(v) => Some(v) case None => before.manifestSha)
               && patched.(version := before.version, manifestSha := before.manifestSha) == before
  {
  }

  lemma VisibleIff(db: Db, p: Id, d: Draft)
    ensures d in Visible(db, p) <==> exists key :: key in db.rows && key.kind == d.kind && db.rows[key] == Row(d.name, d.body, Some(p))
  {
  }

  lemma PlannedNames(rows: map<Key, Row>, pack: Pack, mode: OnConflict)
    requires Prepare(rows, pack, mode).Ok?
    ensures var agenda := Prepare(rows, pack, mode).value;
            && agenda.commandNames == Planned(rows, Command, pack.commands, mode)
            && agenda.scriptNames == Planned(rows, Script, pack.scripts, mode)
            && agenda.drafts == Drafts(Command, agenda.commandNames, pack.commands) + Drafts(Script, agenda.scriptNames, pack.scripts)
  {
    PlanSucceedsIff(Mapped(ItemName, pack.commands), TakenNames(rows, Command), mode);
    PlanSucceedsIff(Mapped(ItemName, pack.scripts), TakenNames(rows, Script), mode);
    hide Plan, TakenNames, Drafts, Rejects, Mapped;
  }

  lemma SpelledDrafts(kind: Kind, items: seq<Item>, names: seq<string>, d: Draft)
    requires |names| == |items| && Readable(items)
    ensures d in Drafts(kind, names, items) <==> d.kind == kind && Spelled(kind, items, names, d.name, d.body)
  {
    DraftOrigin(kind, names, items, d);
    forall i | 0 <= i < |items|
      ensures Validate(kind, names[i], items[i].fields) == Some(d.body) <==> 1 <= |names[i]| <= 255 && SpellsBody(kind, items[i].fields, d.body)
    {
      ValidateIff(kind, names[i], items[i].fields, d.body);
    }
    hide Validate, SpellsBody, Drafts, Readable;
  }

  lemma BareRows(bare: map<Key, Row>, rows: map<Key, Row>, p: Id, others: map<Key, Row>)
    requires forall key :: key in bare <==> key in rows && rows[key].owner != Some(p)
    requires forall key :: key in bare ==> bare[key] == rows[key]
    requires others == map key | key in rows && rows[key].owner != Some(p) :: rows[key]
    ensures bare == others
  {
  }

  /** What an update leaves: the rows of others as they were, and of the pack exactly the bodies that its items
      spell, under the names planned against those rows alone. */
  lemma UpdatedRowsSpellItems(db: Db, p: Id, mode: OnConflict, kind: Kind, name: string, body: Body, others: map<Key, Row>)
    requires Inv(db) && Update(db, p, mode).Ok?
    requires Readable(db.packs[p].commands) && Readable(db.packs[p].scripts)
    requires others == map key | key in db.rows && db.rows[key].owner != Some(p) :: db.rows[key]
    ensures var after, pack := Update(db, p, mode).value.0, db.packs[p];
            var items := if kind == Command then pack.commands else pack.scripts;
            && (forall key :: key in others ==> key in after.rows && after.rows[key] == others[key])
            && ((exists key :: key in after.rows && key.kind == kind && after.rows[key] == Row(name, body, Some(p)))
                <==> Spelled(kind, items, Planned(others, kind, items, mode), name, body))
  {
    var bare := Uninstalled(db, p);
    UninstallRemovesOwnedRows(db, p);
    UninstallKeepsInv(db, p);
    BareRows(bare.rows, db.rows, p, others);
    assert bare.packs[p] == db.packs[p].(installed := None);
    hide Inv, Uninstalled, Readable, Spelled, Planned, Install;
    assert Update(db, p, mode) == Install(bare, p, mode);
    InstalledRowsSpellItems(bare, p, mode, kind, name, body);
    InstallTouchesOnlyItsPack(bare, p, mode);
  }

  /** Repeating an update in the same mode, with nothing else changed, succeeds again and
      installs the same content under the same names; other rows stay untouched. */
  lemma UpdateRepeats(db: Db, p: Id, mode: OnConflict)
    requires Inv(db) && Update(db, p, mode).Ok?
    ensures var once := Update(db, p, mode).value.0;
            && Update(once, p, mode).Ok?
            && var twice := Update(once, p, mode).value.0;
               && Visible(twice, p) == Visible(once, p)
               && forall key :: key in once.rows && once.rows[key].owner != Some(p) ==>
                    key in twice.rows && twice.rows[key] == once.rows[key]
  {
    var bare := Uninstalled(db, p);
    UninstallKeepsInv(db, p);
    var once := Update(db, p, mode).value.0;
    InstallKeepsInv(bare, p, mode);
    InstallThenUninstallRestores(bare, p, mode);
    UninstallRemovesOwnedRows(db, p);
    UninstallRemovesOwnedRows(once, p);
    var bare2 := Uninstalled(once, p);
    UninstallKeepsInv(once, p);
    InvIsFresh(bare);
    InvIsFresh(bare2);
    assert bare2 == bare.(next := bare2.next);
    hide Inv, Uninstalled, Prepare, Written, FreshAbove, FlushAccepts;
    var drafts := Prepare(bare.rows, bare.packs[p], mode).value.drafts;
    WrittenVisible(bare, p, drafts);
    WrittenVisible(bare2, p, drafts);
    WrittenFrame(bare2, p, drafts);
  }
}
