/** The gateway whose methods change the pack tables in place, one transaction each. */
module PackGateway {
  import opened Prelude
  import opened Utf8
  import opened Names
  import opened Assets
  import opened PackContent
  import opened PackDb
  import opened PackInvariant

  /** The second phase of an installation: valid rows and per-item errors. */
  method ValidateItems(kind: Kind, names: seq<string>, items: seq<Item>)
    returns (drafts: seq<Draft>, rejects: seq<string>)
    requires |names| == |items|
    ensures drafts == Drafts(kind, names, items)
    ensures rejects == Rejects(kind, names, items)
  {
    hide Validate;
    drafts, rejects := [], [];
    for i := 0 to |items|
      invariant drafts == Drafts(kind, names[..i], items[..i])
      invariant rejects == Rejects(kind, names[..i], items[..i])
    {
      assert names[..i + 1][..i] == names[..i] && items[..i + 1][..i] == items[..i];
      match Validate(kind, names[i], items[i].fields)
      case Some(body) => drafts := drafts + [Draft(kind, names[i], body)];
      case None => rejects := rejects + [names[i]];
    }
    assert names[..|names|] == names && items[..|items|] == items;
  }

  lemma WrittenStep(db: Db, p: Id, drafts: seq<Draft>, i: nat)
    requires p in db.packs && i < |drafts|
    ensures Written(db, p, drafts[..i + 1]) == Put(Written(db, p, drafts[..i]), p, drafts[i])
  {
    assert drafts[..i + 1][..i] == drafts[..i];
  }

  lemma {:induction false} WrittenPacks(db: Db, p: Id, drafts: seq<Draft>)
    requires p in db.packs
    ensures Written(db, p, drafts).packs
            == if drafts == [] then db.packs
               else db.packs[p := db.packs[p].(installed := Some(db.packs[p].version))]
    ensures Written(db, p, drafts).assets == db.assets
  {
    if drafts != [] {
      WrittenPacks(db, p, drafts[..|drafts| - 1]);
    }
  }

  lemma NothingToInstall(db: Db, p: Id, mode: OnConflict)
    requires p in db.packs && db.packs[p].installed.None? && db.packs[p].commands == [] == db.packs[p].scripts
    ensures Install(db, p, mode) == Ok((db, InstallResult(0, 0, [])))
  {
  }

  class Gateway {
    var packs: map<Id, Pack>
    var rows: map<Key, Row>
    var links: map<Id, Link>
    var assets: map<(Id, string), Asset>
    var next: Id

    function Tables(): Db
      reads this
    {
      Db(packs, rows, links, assets, next)
    }

    ghost predicate Valid()
      reads this
    {
      Inv(Tables())
    }

    constructor ()
      ensures Valid() && Tables() == EMPTY
    {
      packs, rows, links, assets, next := map[], map[], map[], map[], 0;
    }

    /** Undo the writes of a transaction that failed. */
    method Rollback(saved: Db)
      modifies this
      ensures Tables() == saved
    {
      packs, rows, links, assets, next := saved.packs, saved.rows, saved.links, saved.assets, saved.next;
    }

    // ----- install ---------------------------------------------------------------

    /** Third phase: the rows of the drafts, in one loop; their ids are base, base + 2, ... */
    method WriteRows(p: Id, drafts: seq<Draft>)
      requires p in packs
      modifies this`rows
      ensures rows == Written(old(Tables()), p, drafts).rows
    {
      var base := next;
      ghost var before := Tables();
      for i := 0 to |drafts|
        invariant rows == Written(before, p, drafts[..i]).rows
      {
        WrittenStep(before, p, drafts, i);
        var d := drafts[i];
        rows := rows[Key(d.kind, base + 2 * i) := Row(d.name, d.body, Some(p))];
      }
      assert drafts[..|drafts|] == drafts;
    }

    /** ... and the links to them, in a second loop. */
    method WriteLinks(p: Id, drafts: seq<Draft>, ghost before: Db)
      requires p in before.packs && links == before.links && next == before.next
      modifies this`links
      ensures links == Written(before, p, drafts).links
    {
      var base := next;
      for i := 0 to |drafts|
        invariant links == Written(before, p, drafts[..i]).links
      {
        WrittenStep(before, p, drafts, i);
        links := links[base + 2 * i + 1 := Link(p, Key(drafts[i].kind, base + 2 * i))];
      }
      assert drafts[..|drafts|] == drafts;
    }

    /** `_install_in_session`: on an error the tables may be half written. */
    method InstallInSession(p: Id, mode: OnConflict) returns (r: Result<InstallResult, PackError>)
      requires p in packs
      modifies this
      ensures match r
              case Ok(result) => Install(old(Tables()), p, mode) == Ok((Tables(), result))
              case Err(e) => Install(old(Tables()), p, mode) == Err(e)
    {
      hide Plan, Drafts, Rejects, TakenNames, Mapped, Written, Failures, Successes, FlushAccepts;
      ghost var before := Tables();
      var pack := packs[p];
      if pack.installed.Some? {
        return Err(AlreadyInstalled);
      }
      if pack.commands == [] && pack.scripts == [] {
        NothingToInstall(before, p, mode);
        return Ok(InstallResult(0, 0, []));
      }
      var existingCommands := TakenNames(rows, Command);
      var existingScripts := TakenNames(rows, Script);
      var plannedCommands := PlanNames(Mapped(ItemName, pack.commands), existingCommands, mode);
      if plannedCommands.Err? {
        return Err(NameClash(Command, plannedCommands.error));
      }
      var plannedScripts := PlanNames(Mapped(ItemName, pack.scripts), existingScripts, mode);
      if plannedScripts.Err? {
        return Err(NameClash(Script, plannedScripts.error));
      }
      var validCommands, badCommands := ValidateItems(Command, plannedCommands.value, pack.commands);
      var validScripts, badScripts := ValidateItems(Script, plannedScripts.value, pack.scripts);
      var results := Failures(Command, badCommands) + Failures(Script, badScripts);
      var drafts := validCommands + validScripts;
      ghost var agenda := Agenda(plannedCommands.value, plannedScripts.value, drafts, results);
      assert Prepare(before.rows, pack, mode) == Ok(agenda);
      WriteRows(p, drafts);
      if !FlushAccepts(drafts) {
        return Err(IntegrityError);
      }
      WriteLinks(p, drafts, before);
      if drafts != [] {
        packs := packs[p := pack.(installed := Some(pack.version))];
      }
      var okItems := Successes(drafts, next);
      next := next + 2 * |drafts|;
      WrittenPacks(before, p, drafts);
      assert Tables() == Written(before, p, drafts);
      r := Ok(InstallResult(|drafts|, |results|, okItems + results));
    }

    method InstallPack(p: Id, mode: OnConflict) returns (r: Result<InstallResult, PackError>)
      requires Valid()
      modifies this
      ensures Valid()
      ensures match r
              case Ok(result) => Install(old(Tables()), p, mode) == Ok((Tables(), result))
              case Err(e) => Install(old(Tables()), p, mode) == Err(e) && Tables() == old(Tables())
    {
      if p !in packs {
        return Err(PackNotFound);
      }
      hide Install, Inv;
      var saved := Tables();
      r := InstallInSession(p, mode);
      if r.Err? {
        Rollback(saved);
      } else {
        InstallKeepsInv(saved, p, mode);
      }
    }

    // ----- uninstall, update, delete --------------------------------------------------

    /** One link of the loop below: its row goes, unless a user has deleted it, and then the link. */
    method RemoveLink(l: Id)
      requires l in links
      modifies this`rows, this`links
      ensures Tables() == WithoutLink(old(Tables()), l)
    {
      var target := links[l].target;
      if target in rows {
        rows := rows - {target};
      }
      links := links - {l};
    }

    /** `_uninstall_in_session`: one link after the other, in any order; rows that users have
        deleted are passed over. */
    method UninstallInSession(p: Id)
      requires p in packs
      modifies this
      ensures Tables() == Uninstalled(old(Tables()), p)
    {
      hide UninstalledUpTo, LinksOf, Uninstalled, WithoutLink;
      ghost var before := Tables();
      var todo := LinksOf(Tables(), p);
      ghost var done: set<Id> := {};
      UninstallStarts(before);
      while todo != {}
        invariant todo !! done && todo + done == LinksOf(before, p)
        invariant UninstalledUpTo(before, Tables(), done)
        decreases |todo|
      {
        var l :| l in todo;
        UninstallStep(before, Tables(), done, p, l);
        RemoveLink(l);
        todo, done := todo - {l}, done + {l};
      }
      assert done == LinksOf(before, p);
      UninstallEnds(before, Tables(), p);
      packs := packs[p := packs[p].(installed := None)];
    }

    method UninstallPack(p: Id) returns (r: Result<(), PackError>)
      requires Valid()
      modifies this
      ensures Valid()
      ensures r == if p in old(packs) then Ok(()) else Err(PackNotFound)
      ensures Tables() == if p in old(packs) then Uninstalled(old(Tables()), p) else old(Tables())
    {
      if p !in packs {
        return Err(PackNotFound);
      }
      hide Inv, Uninstalled;
      UninstallKeepsInv(Tables(), p);
      UninstallInSession(p);
      r := Ok(());
    }

    /** One transaction: a conflict rolls the uninstallation back too. */
    method UpdatePack(p: Id, mode: OnConflict) returns (r: Result<InstallResult, PackError>)
      requires Valid()
      modifies this
      ensures Valid()
      ensures match r
              case Ok(result) => Update(old(Tables()), p, mode) == Ok((Tables(), result))
              case Err(e) => Update(old(Tables()), p, mode) == Err(e) && Tables() == old(Tables())
    {
      if p !in packs {
        return Err(PackNotFound);
      }
      hide Inv, Install;
      var saved := Tables();
      UninstallInSession(p);
      ghost var bare := Tables();
      UninstallKeepsInv(saved, p);
      r := InstallInSession(p, mode);
      if r.Err? {
        Rollback(saved);
      } else {
        InstallKeepsInv(bare, p, mode);
      }
    }

    method DeletePack(p: Id) returns (r: Result<(), PackError>)
      requires Valid()
      modifies this
      ensures Valid()
      ensures r == if p in old(packs) then Ok(()) else Err(PackNotFound)
      ensures Tables() == if p in old(packs) then Deleted(old(Tables()), p) else old(Tables())
    {
      if p !in packs {
        return Err(PackNotFound);
      }
      hide Inv, Uninstalled, Disowned, LinksWithout, WithoutAssets;
      DeleteKeepsInv(Tables(), p);
      UninstallInSession(p);
      packs := packs - {p};
      // What the foreign keys of the database do when the pack row goes.
      rows := Disowned(rows, p);
      links := LinksWithout(links, p);
      assets := WithoutAssets(assets, p);
      r := Ok(());
    }

    // ----- create, sync, archive ---------------------------------------------------------

    method WriteAssets(p: Id, decoded: Decoded)
      modifies this`assets
      ensures assets == WithAssets(old(assets), p, decoded)
    {
      hide StoreAsset;
      for i := 0 to |decoded|
        invariant assets == WithAssets(old(assets), p, decoded[..i])
      {
        assert decoded[..i + 1][..i] == decoded[..i];
        var (path, raw) := decoded[i];
        assets := assets[(p, path) := StoreAsset(raw)];
      }
      assert decoded[..|decoded|] == decoded;
    }

    /** The new pack row and its assets, once the request has been checked. */
    method InsertPack(m: Manifest, decoded: Decoded) returns (p: Id)
      requires decoded == Payloads(m.uploads)
      modifies this
      ensures p == old(next) && Tables() == Added(old(Tables()), m)
    {
      hide WithAssets, Payloads;
      p := next;
      packs := packs[p := Pack(m.registry, m.slug, m.version, m.manifestSha, m.commands, m.scripts, None)];
      next := next + 1;
      WriteAssets(p, decoded);
    }

    /** The edited pack row and its new assets; the old assets are deleted. */
    method ReplacePack(p: Id, m: Manifest, decoded: Decoded)
      requires p in packs && decoded == Payloads(m.uploads)
      modifies this
      ensures Tables() == Replaced(old(Tables()), p, m)
    {
      hide WithAssets, Payloads;
      packs := packs[p := packs[p].(version := m.version, manifestSha := m.manifestSha,
                                    commands := m.commands, scripts := m.scripts)];
      assets := WithoutAssets(assets, p);
      WriteAssets(p, decoded);
    }

    method CreatePack(m: Manifest) returns (r: Result<Id, PackError>)
      requires Valid()
      modifies this
      ensures Valid()
      ensures match r
              case Ok(p) => Create(old(Tables()), m) == Ok((Tables(), p))
              case Err(e) => Create(old(Tables()), m) == Err(e) && Tables() == old(Tables())
    {
      hide Inv, Acceptable, WithAssets, Payloads, ValidPackId, Added, Registered;
      if !ValidPackId(m.slug) {
        return Err(InvalidPackId);
      }
      var decoded := DecodeAssets(m.uploads);
      if decoded.None? {
        return Err(InvalidAssets);
      }
      if Registered(Tables(), m) {
        return Err(DuplicatePack);
      }
      AddKeepsInv(Tables(), m);
      var p := InsertPack(m, decoded.value);
      r := Ok(p);
    }

    /** The row that the lookup by registry and slug returns, if any. */
    method FindPack(m: Manifest) returns (found: Option<Id>)
      ensures Finds(Tables(), m, found)
    {
      if Registered(Tables(), m) {
        var p :| p in packs && SamePack(packs[p], m);
        found := Some(p);
      } else {
        found := None;
      }
    }

    method UpsertSyncedPack(m: Manifest) returns (r: Result<(Id, Outcome), PackError>, ghost found: Option<Id>)
      requires Valid()
      modifies this
      ensures Valid()
      ensures Finds(old(Tables()), m, found)
      ensures match r
              case Ok((p, outcome)) => Sync(old(Tables()), found, m) == Ok((Tables(), outcome))
                                       && p == if found.Some? then found.value else old(next)
              case Err(e) => Sync(old(Tables()), found, m) == Err(e) && Tables() == old(Tables())
    {
      hide Inv, Acceptable, WithAssets, Payloads, ValidPackId, Added, Replaced, Registered, SamePack;
      var row := FindPack(m);
      found := row;
      if !ValidPackId(m.slug) {
        return Err(InvalidPackId), found;
      }
      var decoded := DecodeAssets(m.uploads);
      if decoded.None? {
        return Err(InvalidAssets), found;
      }
      if row.Some? {
        var p := row.value;
        if packs[p].manifestSha == m.manifestSha {
          return Ok((p, Unchanged)), found;
        }
        ReplaceKeepsInv(Tables(), p, m);
        ReplacePack(p, m, decoded.value);
        r := Ok((p, Updated));
      } else {
        AddKeepsInv(Tables(), m);
        var p := InsertPack(m, decoded.value);
        r := Ok((p, Created));
      }
    }

    /** `order` is the order in which the query happens to return the asset rows. */
    method GetAssetsTar(p: Id, order: seq<string>) returns (r: Result<seq<(string, seq<Byte>)>, PackError>)
      requires Valid() && Enumerates(order, PathsOf(assets, p))
      ensures forall path :: path in order ==> (p, path) in assets
      ensures r == if p in packs then Ok(Tar(assets, p, order)) else Err(PackNotFound)
    {
      forall path | path in order ensures (p, path) in assets {
        assert path in Range(order);
      }
      if p !in packs {
        return Err(PackNotFound);
      }
      hide ReadAsset, ValidPath, Inv;
      var entries := [];
      for i := 0 to |order|
        invariant entries == Tar(assets, p, order[..i])
      {
        assert order[..i + 1][..i] == order[..i];
        var path := order[i];
        if ValidPath(path) {
          entries := entries + [(path, ReadAsset(assets[(p, path)]))];
        }
      }
      assert order[..|order|] == order;
      r := Ok(entries);
    }
  }

  function TargetsOf(links: map<Id, Link>, ids: set<Id>): set<Key>
    requires ids <= links.Keys
  {
    set l | l in ids :: links[l].target
  }

  /** Some links of `before` are gone, and with them the rows they led to. */
  ghost predicate UninstalledUpTo(before: Db, db: Db, done: set<Id>) {
    done <= before.links.Keys && db == before.(links := before.links - done, rows := before.rows - TargetsOf(before.links, done))
  }

  function WithoutLink(db: Db, l: Id): Db
    requires l in db.links
  {
    db.(rows := db.rows - {db.links[l].target}, links := db.links - {l})
  }

  lemma UninstallStarts(db: Db)
    ensures UninstalledUpTo(db, db, {})
  {
    assert TargetsOf(db.links, {}) == {};
  }

  lemma UninstallStep(before: Db, db: Db, done: set<Id>, p: Id, l: Id)
    requires UninstalledUpTo(before, db, done) && l in LinksOf(before, p) && l !in done
    ensures l in db.links && UninstalledUpTo(before, WithoutLink(db, l), done + {l})
  {
    TargetsOfStep(before.links, done, l);
    hide TargetsOf;
  }

  lemma UninstallEnds(before: Db, db: Db, p: Id)
    requires p in before.packs && UninstalledUpTo(before, db, LinksOf(before, p))
    ensures p in db.packs && db.(packs := db.packs[p := db.packs[p].(installed := None)]) == Uninstalled(before, p)
  {
    assert TargetsOf(before.links, LinksOf(before, p)) == Targets(before, p);
    hide TargetsOf, Targets, LinksOf;
  }

  lemma TargetsOfStep(links: map<Id, Link>, ids: set<Id>, l: Id)
    requires ids <= links.Keys && l in links
    ensures TargetsOf(links, ids + {l}) == TargetsOf(links, ids) + {links[l].target}
  {
    forall key | key in TargetsOf(links, ids) + {links[l].target} ensures key in TargetsOf(links, ids + {l}) {
      if key in TargetsOf(links, ids) {
        var m :| m in ids && links[m].target == key;
        assert m in ids + {l};
      } else {
        assert l in ids + {l};
      }
    }
  }
}
