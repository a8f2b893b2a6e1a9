/** The invariant of the pack tables: it holds in every reachable state. */
module PackInvariant {
  import opened Prelude
  import opened Utf8
  import opened Names
  import opened Assets
  import opened PackContent
  import opened PackDb

  /** A stored asset reads back as bytes of the stored size that would be stored the same way. */
  predicate WellStored(asset: Asset) {
    |ReadAsset(asset)| == asset.size && StoreAsset(ReadAsset(asset)) == asset
  }

  ghost predicate FreshAbove(db: Db) {
    && (forall p :: p in db.packs ==> p < db.next)
    && (forall key :: key in db.rows ==> key.id < db.next)
    && (forall l :: l in db.links ==> l < db.next && db.links[l].target.id < db.next)
  }

  ghost predicate UniqueNames(rows: map<Key, Row>) {
    forall k1, k2 :: k1 in rows && k2 in rows && k1.kind == k2.kind && rows[k1].name == rows[k2].name ==> k1 == k2
  }

  ghost predicate UniquePacks(packs: map<Id, Pack>) {
    forall p, q :: p in packs && q in packs && packs[p].registry == packs[q].registry && packs[p].slug == packs[q].slug
                   ==> p == q
  }

  ghost predicate HasLink(db: Db, p: Id) {
    exists l :: l in db.links && db.links[l].pack == p
  }

  ghost predicate IsTarget(db: Db, p: Id, key: Key) {
    exists l :: l in db.links && db.links[l] == Link(p, key)
  }

  /** A pack is marked installed iff it has links. */
  ghost predicate InstalledIffLinked(db: Db) {
    forall p :: p in db.packs ==> (db.packs[p].installed.Some? <==> HasLink(db, p))
  }

  /** Every row owned by a pack is the target of a link of that pack; a link whose row still
      exists leads to a row owned by the same pack, however users have deleted rows. */
  ghost predicate LinksMatchOwners(db: Db) {
    && (forall l :: l in db.links ==> db.links[l].pack in db.packs)
    && (forall key :: key in db.rows && db.rows[key].owner.Some? ==>
          db.rows[key].owner.value in db.packs && IsTarget(db, db.rows[key].owner.value, key))
    && (forall l :: l in db.links && db.links[l].target in db.rows ==>
          db.rows[db.links[l].target].owner == Some(db.links[l].pack))
  }

  ghost predicate AssetsSound(db: Db) {
    forall a :: a in db.assets ==> a.0 in db.packs && ValidPath(a.1) && WellStored(db.assets[a])
  }

  ghost predicate ColumnsSound(rows: map<Key, Row>) {
    forall key :: key in rows ==> ColumnsAccept(rows[key].body)
  }

  ghost predicate Inv(db: Db) {
    && FreshAbove(db)
    && UniqueNames(db.rows)
    && UniquePacks(db.packs)
    && InstalledIffLinked(db)
    && LinksMatchOwners(db)
    && AssetsSound(db)
    && ColumnsSound(db.rows)
  }

  // ----- uninstall ----------------------------------------------------------------

  /** Exactly the rows of the pack go, and its links; nothing else changes. */
  lemma UninstallRemovesOwnedRows(db: Db, p: Id)
    requires Inv(db) && p in db.packs
    ensures var after := Uninstalled(db, p);
            && (forall key :: key in after.rows <==> key in db.rows && db.rows[key].owner != Some(p))
            && (forall key :: key in after.rows ==> after.rows[key] == db.rows[key])
            && (forall l :: l in after.links <==> l in db.links && db.links[l].pack != p)
            && (forall l :: l in after.links ==> after.links[l] == db.links[l])
            && after.packs == db.packs[p := db.packs[p].(installed := None)]
            && after.assets == db.assets
  {
    forall key | key in db.rows ensures key in Targets(db, p) <==> db.rows[key].owner == Some(p) {
      if db.rows[key].owner == Some(p) {
        assert IsTarget(db, p, key);
      }
    }
  }

  lemma UninstallKeepsInv(db: Db, p: Id)
    requires Inv(db) && p in db.packs
    ensures Inv(Uninstalled(db, p))
  {
    UninstallKeepsLinks(db, p);
    UninstallKeepsRows(db, p);
    UninstallKeepsPacks(db, p);
    hide *;
    InvFrom(Uninstalled(db, p));
  }

  lemma InvFrom(db: Db)
    requires FreshAbove(db) && UniqueNames(db.rows) && UniquePacks(db.packs) && InstalledIffLinked(db)
    requires LinksMatchOwners(db) && AssetsSound(db) && ColumnsSound(db.rows)
    ensures Inv(db)
  {
  }

  lemma UninstallKeepsRows(db: Db, p: Id)
    requires Inv(db) && p in db.packs
    ensures var after := Uninstalled(db, p);
            FreshAbove(after) && UniqueNames(after.rows) && ColumnsSound(after.rows)
  {
    hide ColumnsAccept, UniquePacks, InstalledIffLinked, LinksMatchOwners, AssetsSound;
    assert Uninstalled(db, p).packs.Keys == db.packs.Keys;
  }

  lemma UninstallKeepsPacks(db: Db, p: Id)
    requires Inv(db) && p in db.packs
    ensures var after := Uninstalled(db, p);
            UniquePacks(after.packs) && AssetsSound(after)
  {
    hide ValidPath, WellStored, UniqueNames, ColumnsSound, InstalledIffLinked, LinksMatchOwners, FreshAbove;
  }

  lemma UninstallKeepsLinks(db: Db, p: Id)
    requires Inv(db) && p in db.packs
    ensures InstalledIffLinked(Uninstalled(db, p)) && LinksMatchOwners(Uninstalled(db, p))
  {
    var after := Uninstalled(db, p);
    UninstallRemovesOwnedRows(db, p);
    hide Targets, LinksOf, UniqueNames, UniquePacks, ColumnsSound, AssetsSound, FreshAbove;
    forall q | q in after.packs ensures after.packs[q].installed.Some? <==> HasLink(after, q) {
      if q != p && HasLink(db, q) {
        var l :| l in db.links && db.links[l].pack == q;
        assert l in after.links;
      }
    }
    forall key | key in after.rows && after.rows[key].owner.Some?
      ensures after.rows[key].owner.value in after.packs && IsTarget(after, after.rows[key].owner.value, key)
    {
      var q := db.rows[key].owner.value;
      assert IsTarget(db, q, key);
      var l :| l in db.links && db.links[l] == Link(q, key);
      assert l in after.links;
    }
  }

  // ----- install ------------------------------------------------------------------

  /** What `Prepare` guarantees about the drafts: per table their names are new and distinct. */
  lemma PreparedDrafts(rows: map<Key, Row>, pack: Pack, mode: OnConflict)
    requires Prepare(rows, pack, mode).Ok?
    ensures var drafts := Prepare(rows, pack, mode).value.drafts;
            && DistinctDraftNames(drafts)
            && forall d :: d in drafts ==> d.name !in TakenNames(rows, d.kind)
  {
    var agenda := Prepare(rows, pack, mode).value;
    PlanIsSound(Mapped(ItemName, pack.commands), TakenNames(rows, Command), mode);
    PlanIsSound(Mapped(ItemName, pack.scripts), TakenNames(rows, Script), mode);
    hide Plan, TakenNames, Drafts, Rejects, Failures, Mapped;
    DraftsDistinct(Command, agenda.commandNames, pack.commands);
    DraftsDistinct(Script, agenda.scriptNames, pack.scripts);
    DraftsAppend(Drafts(Command, agenda.commandNames, pack.commands), Drafts(Script, agenda.scriptNames, pack.scripts));
    forall d | d in agenda.drafts ensures d.name !in TakenNames(rows, d.kind) {
      assert d.name in Range(if d.kind == Command then agenda.commandNames else agenda.scriptNames);
    }
  }

  lemma DraftsAppend(cs: seq<Draft>, ss: seq<Draft>)
    requires DistinctDraftNames(cs) && DistinctDraftNames(ss)
    requires forall d :: d in cs ==> d.kind == Command
    requires forall d :: d in ss ==> d.kind == Script
    ensures DistinctDraftNames(cs + ss)
  {
    var all := cs + ss;
    assert forall i :: 0 <= i < |cs| ==> all[i] == cs[i] && cs[i] in cs;
    assert forall i :: |cs| <= i < |all| ==> all[i] == ss[i - |cs|] && ss[i - |cs|] in ss;
  }

  lemma PutKeepsInv(db: Db, p: Id, d: Draft)
    requires Inv(db) && p in db.packs
    requires d.name !in TakenNames(db.rows, d.kind) && ColumnsAccept(d.body)
    ensures Inv(Put(db, p, d))
  {
    PutKeepsLinks(db, p, d);
    PutKeepsRows(db, p, d);
    PutKeepsPacks(db, p, d);
    hide *;
    InvFrom(Put(db, p, d));
  }

  lemma PutKeepsRows(db: Db, p: Id, d: Draft)
    requires FreshAbove(db) && UniqueNames(db.rows) && ColumnsSound(db.rows) && p in db.packs
    requires d.name !in TakenNames(db.rows, d.kind) && ColumnsAccept(d.body)
    ensures var after := Put(db, p, d);
            FreshAbove(after) && UniqueNames(after.rows) && ColumnsSound(after.rows)
  {
    hide ColumnsAccept;
    forall k | k in db.rows && k.kind == d.kind ensures db.rows[k].name != d.name {
      assert db.rows[k].name in TakenNames(db.rows, d.kind) <==> true;
    }
  }

  lemma PutKeepsPacks(db: Db, p: Id, d: Draft)
    requires UniquePacks(db.packs) && AssetsSound(db) && p in db.packs
    ensures UniquePacks(Put(db, p, d).packs) && AssetsSound(Put(db, p, d))
  {
    hide ValidPath, WellStored;
  }

  lemma PutKeepsLinks(db: Db, p: Id, d: Draft)
    requires FreshAbove(db) && InstalledIffLinked(db) && LinksMatchOwners(db) && p in db.packs
    ensures InstalledIffLinked(Put(db, p, d)) && LinksMatchOwners(Put(db, p, d))
  {
    PutAddsLink(db, p, d);
    hide HasLink, IsTarget;
    assert LinksMatchOwners(Put(db, p, d));
  }

  lemma PutAddsLink(db: Db, p: Id, d: Draft)
    requires FreshAbove(db) && p in db.packs
    ensures forall q :: HasLink(Put(db, p, d), q) <==> HasLink(db, q) || q == p
    ensures forall q, k :: IsTarget(Put(db, p, d), q, k) <==> IsTarget(db, q, k) || (q == p && k == Key(d.kind, db.next))
  {
    var after := Put(db, p, d);
    AddLinkWitness(db.links, db.next + 1, Link(p, Key(d.kind, db.next)));
  }

  lemma AddLinkWitness(links: map<Id, Link>, l: Id, link: Link)
    requires l !in links
    ensures var after := links[l := link];
            && after[l] == link
            && forall m :: m in links ==> m in after && after[m] == links[m]
  {
  }

  /** The rows of a draft list: the old names and the names of the drafts. */
  lemma {:induction false} WrittenNames(db: Db, p: Id, drafts: seq<Draft>, kind: Kind, name: string)
    requires FreshAbove(db) && p in db.packs
    ensures FreshAbove(Written(db, p, drafts))
    ensures name in TakenNames(Written(db, p, drafts).rows, kind)
            <==> name in TakenNames(db.rows, kind)
                 || exists d :: d in drafts && d.kind == kind && d.name == name
  {
    if drafts != [] {
      var n := |drafts| - 1;
      WrittenNames(db, p, drafts[..n], kind, name);
      PutNames(Written(db, p, drafts[..n]), p, drafts[n], kind, name);
      hide Put, TakenNames;
      assert drafts == drafts[..n] + [drafts[n]];
    }
  }

  lemma PutNames(db: Db, p: Id, d: Draft, kind: Kind, name: string)
    requires FreshAbove(db) && p in db.packs
    ensures FreshAbove(Put(db, p, d))
    ensures name in TakenNames(Put(db, p, d).rows, kind)
            <==> name in TakenNames(db.rows, kind) || (d.kind == kind && d.name == name)
  {
    var after := Put(db, p, d);
    var key := Key(d.kind, db.next);
    assert key !in db.rows;
    forall k | k in db.rows ensures k in after.rows && after.rows[k] == db.rows[k] {
    }
    assert key in after.rows;
    if name in TakenNames(db.rows, kind) {
      var k :| k in db.rows && k.kind == kind && db.rows[k].name == name;
      assert k in after.rows;
    }
    if name in TakenNames(after.rows, kind) {
      var k :| k in after.rows && k.kind == kind && after.rows[k].name == name;
      assert k == key || k in db.rows;
    }
  }

  lemma {:induction false} WrittenKeepsInv(db: Db, p: Id, drafts: seq<Draft>)
    requires Inv(db) && p in db.packs
    requires DistinctDraftNames(drafts) && FlushAccepts(drafts)
    requires forall d :: d in drafts ==> d.name !in TakenNames(db.rows, d.kind)
    ensures Inv(Written(db, p, drafts))
  {
    hide Inv, TakenNames, ColumnsAccept, Put;
    if drafts != [] {
      var n := |drafts| - 1;
      var d := drafts[n];
      WrittenKeepsInv(db, p, drafts[..n]);
      assert FreshAbove(db) by { InvIsFresh(db); }
      WrittenNames(db, p, drafts[..n], d.kind, d.name);
      PutKeepsInv(Written(db, p, drafts[..n]), p, d);
    }
  }

  lemma InvIsFresh(db: Db)
    requires Inv(db)
    ensures FreshAbove(db)
  {
  }

  lemma InstallKeepsInv(db: Db, p: Id, mode: OnConflict)
    requires Inv(db) && Install(db, p, mode).Ok?
    ensures Inv(Install(db, p, mode).value.0)
  {
    hide Inv, Prepare;
    PreparedDrafts(db.rows, db.packs[p], mode);
    WrittenKeepsInv(db, p, Prepare(db.rows, db.packs[p], mode).value.drafts);
  }

  // ----- the other transactions -----------------------------------------------------

  /** Once a pack is uninstalled no row is disowned and no link cascades: deleting a pack
      removes exactly its rows, links and assets. */
  lemma DeleteAfterUninstall(db: Db, p: Id)
    requires Inv(db) && p in db.packs
    ensures Deleted(db, p) == Uninstalled(db, p).(packs := db.packs - {p}, assets := WithoutAssets(db.assets, p))
  {
    UninstallRemovesOwnedRows(db, p);
    UninstallPacks(db, p);
    hide Uninstalled, Inv;
    NothingToDisown(Uninstalled(db, p), p);
  }

  lemma NothingToDisown(bare: Db, p: Id)
    requires forall key :: key in bare.rows ==> bare.rows[key].owner != Some(p)
    requires forall l :: l in bare.links ==> bare.links[l].pack != p
    ensures Disowned(bare.rows, p) == bare.rows
    ensures LinksWithout(bare.links, p) == bare.links
  {
  }

  lemma UninstallPacks(db: Db, p: Id)
    requires p in db.packs
    ensures Uninstalled(db, p).packs - {p} == db.packs - {p}
    ensures Uninstalled(db, p).next == db.next
  {
  }

  lemma DeleteKeepsInv(db: Db, p: Id)
    requires Inv(db) && p in db.packs
    ensures Inv(Deleted(db, p))
  {
    DeleteAfterUninstall(db, p);
    UninstallKeepsInv(db, p);
    UninstallRemovesOwnedRows(db, p);
    DropKeepsInv(Uninstalled(db, p), p);
    UninstallPacks(db, p);
  }

  lemma DropKeepsInv(db: Db, p: Id)
    requires Inv(db)
    requires forall key :: key in db.rows ==> db.rows[key].owner != Some(p)
    requires forall l :: l in db.links ==> db.links[l].pack != p
    ensures Inv(db.(packs := db.packs - {p}, assets := WithoutAssets(db.assets, p)))
  {
    var after := db.(packs := db.packs - {p}, assets := WithoutAssets(db.assets, p));
    SameLinks(db, after);
    hide ValidPath, WellStored, UniqueNames, ColumnsSound;
  }

  lemma SameLinks(db: Db, after: Db)
    requires after.links == db.links
    ensures forall p :: HasLink(after, p) == HasLink(db, p)
    ensures forall p, key :: IsTarget(after, p, key) == IsTarget(db, p, key)
  {
  }

  /** New pack rows that keep the ids and the marks of the old ones; any further ones are unmarked. */
  lemma PacksOnly(db: Db, packs: map<Id, Pack>, next: Id)
    requires Inv(db) && UniquePacks(packs) && db.packs.Keys <= packs.Keys && db.next <= next
    requires forall p :: p in packs ==> p < next
    requires forall p :: p in packs ==>
               packs[p].installed.Some? == (p in db.packs && db.packs[p].installed.Some?)
    ensures Inv(db.(packs := packs, next := next))
  {
    var after := db.(packs := packs, next := next);
    SameLinkState(db, after);
    PacksKeepAssets(db, after);
    assert FreshAbove(after) by { InvIsFresh(db); }
    hide *;
    InvFrom(after);
  }

  lemma PacksKeepAssets(db: Db, after: Db)
    requires Inv(db) && after.assets == db.assets && after.rows == db.rows && db.packs.Keys <= after.packs.Keys
    ensures AssetsSound(after) && UniqueNames(after.rows) && ColumnsSound(after.rows)
  {
    hide ValidPath, WellStored, InstalledIffLinked, LinksMatchOwners, UniqueNames, ColumnsSound, UniquePacks, FreshAbove;
  }

  lemma SameLinkState(db: Db, after: Db)
    requires Inv(db)
    requires after.links == db.links && after.rows == db.rows && db.packs.Keys <= after.packs.Keys
    requires forall p :: p in after.packs ==>
               after.packs[p].installed.Some? == (p in db.packs && db.packs[p].installed.Some?)
    ensures InstalledIffLinked(after) && LinksMatchOwners(after)
  {
    SameLinks(db, after);
    hide FreshAbove, UniqueNames, UniquePacks, AssetsSound, ColumnsSound, IsTarget;
    forall p | p in after.packs ensures after.packs[p].installed.Some? <==> HasLink(after, p) {
      if p !in db.packs {
        assert !HasLink(db, p);
      }
    }
    hide HasLink;
  }

  /** New rows: those that were there keep their owner, and any further ones have none. */
  lemma RowsOnly(db: Db, rows: map<Key, Row>, next: Id)
    requires Inv(db) && UniqueNames(rows) && ColumnsSound(rows) && db.next <= next
    requires forall key :: key in rows ==> key.id < next
    requires forall key :: key in rows && key in db.rows ==> rows[key].owner == db.rows[key].owner
    requires forall key :: key in rows && key !in db.rows ==> rows[key].owner.None? && key.id >= db.next
    ensures Inv(db.(rows := rows, next := next))
  {
    var after := db.(rows := rows, next := next);
    RowsKeepLinks(db, after);
    RowsKeepPacks(db, after);
    assert FreshAbove(after) by { InvIsFresh(db); }
    hide *;
    InvFrom(after);
  }

  lemma RowsKeepLinks(db: Db, after: Db)
    requires Inv(db) && after.links == db.links && after.packs == db.packs
    requires forall key :: key in after.rows && key in db.rows ==> after.rows[key].owner == db.rows[key].owner
    requires forall key :: key in after.rows && key !in db.rows ==> after.rows[key].owner.None? && key.id >= db.next
    ensures InstalledIffLinked(after) && LinksMatchOwners(after)
  {
    SameLinks(db, after);
    hide UniqueNames, UniquePacks, AssetsSound, ColumnsSound, IsTarget, HasLink;
  }

  lemma RowsKeepPacks(db: Db, after: Db)
    requires Inv(db) && after.assets == db.assets && after.packs == db.packs
    ensures AssetsSound(after) && UniquePacks(after.packs)
  {
    hide ValidPath, WellStored, InstalledIffLinked, LinksMatchOwners, UniqueNames, ColumnsSound, UniquePacks, FreshAbove;
  }

  /** Editing the metadata and content of a registered pack. */
  lemma EditPackKeepsInv(db: Db, p: Id, pack: Pack)
    requires Inv(db) && p in db.packs
    requires pack.registry == db.packs[p].registry && pack.slug == db.packs[p].slug
    requires pack.installed.Some? == db.packs[p].installed.Some?
    ensures Inv(db.(packs := db.packs[p := pack]))
  {
    var packs := db.packs[p := pack];
    assert UniquePacks(packs) && forall q :: q in packs ==> q < db.next by {
      hide UniqueNames, AssetsSound, ColumnsSound, InstalledIffLinked, LinksMatchOwners;
    }
    hide Inv, UniquePacks;
    PacksOnly(db, packs, db.next);
    assert db.(packs := packs, next := db.next) == db.(packs := packs);
  }

  lemma {:induction false} WithAssetsSound(db: Db, p: Id, decoded: Decoded)
    requires AssetsSound(db) && p in db.packs
    requires forall i :: 0 <= i < |decoded| ==> ValidPath(decoded[i].0)
    ensures AssetsSound(db.(assets := WithAssets(db.assets, p, decoded)))
  {
    hide ValidPath, WellStored, StoreAsset;
    if decoded != [] {
      var n := |decoded| - 1;
      WithAssetsSound(db, p, decoded[..n]);
      StoredIsWellStored(decoded[n].1);
    }
  }

  lemma StoredIsWellStored(raw: seq<Byte>)
    ensures WellStored(StoreAsset(raw))
  {
    ReadStoredAsset(raw);
  }

  /** The invariant does not depend on the assets but for their soundness. */
  lemma AssetsOnly(db: Db, assets: map<(Id, string), Asset>)
    requires Inv(db) && AssetsSound(db.(assets := assets))
    ensures Inv(db.(assets := assets))
  {
    SameLinkState(db, db.(assets := assets));
    hide UniqueNames, UniquePacks, ColumnsSound, InstalledIffLinked, LinksMatchOwners, AssetsSound;
  }

  lemma UploadsKeepInv(db: Db, p: Id, uploads: seq<Upload>)
    requires Inv(db) && p in db.packs && Acceptable(uploads)
    ensures Inv(db.(assets := WithAssets(db.assets, p, Payloads(uploads))))
  {
    forall i | 0 <= i < |Payloads(uploads)| ensures ValidPath(Payloads(uploads)[i].0) {
      assert AcceptableOne(uploads[i]);
    }
    WithAssetsSound(db, p, Payloads(uploads));
    AssetsOnly(db, WithAssets(db.assets, p, Payloads(uploads)));
  }

  lemma WithoutAssetsKeepsInv(db: Db, p: Id)
    requires Inv(db)
    ensures Inv(db.(assets := WithoutAssets(db.assets, p)))
  {
    AssetsOnly(db, WithoutAssets(db.assets, p));
  }

  lemma ReplaceKeepsInv(db: Db, p: Id, m: Manifest)
    requires Inv(db) && p in db.packs && Acceptable(m.uploads)
    ensures Inv(Replaced(db, p, m))
  {
    var pack := db.packs[p].(version := m.version, manifestSha := m.manifestSha, commands := m.commands, scripts := m.scripts);
    var edited := db.(packs := db.packs[p := pack]);
    EditPackKeepsInv(db, p, pack);
    hide Inv, Acceptable;
    WithoutAssetsKeepsInv(edited, p);
    UploadsKeepInv(edited.(assets := WithoutAssets(db.assets, p)), p, m.uploads);
  }

  lemma AddKeepsInv(db: Db, m: Manifest)
    requires Inv(db) && Acceptable(m.uploads) && !Registered(db, m)
    ensures Inv(Added(db, m))
  {
    var pack := Pack(m.registry, m.slug, m.version, m.manifestSha, m.commands, m.scripts, None);
    hide Inv, Acceptable, Registered;
    AddBareKeepsInv(db, m, pack);
    UploadsKeepInv(db.(packs := db.packs[db.next := pack], next := db.next + 1), db.next, m.uploads);
  }

  lemma AddBareKeepsInv(db: Db, m: Manifest, pack: Pack)
    requires Inv(db) && !Registered(db, m) && pack.installed.None? && SamePack(pack, m)
    ensures Inv(db.(packs := db.packs[db.next := pack], next := db.next + 1))
  {
    var packs := db.packs[db.next := pack];
    InvIsFresh(db);
    assert UniquePacks(db.packs);
    hide Inv, UniquePacks, Registered, SamePack;
    NewPackKeepsUnique(db, m, pack);
    PacksOnly(db, packs, db.next + 1);
  }

  lemma NewPackKeepsUnique(db: Db, m: Manifest, pack: Pack)
    requires UniquePacks(db.packs) && !Registered(db, m) && SamePack(pack, m)
    ensures UniquePacks(db.packs[db.next := pack])
  {
    forall p | p in db.packs ensures !(db.packs[p].registry == pack.registry && db.packs[p].slug == pack.slug) {
      assert SamePack(db.packs[p], m) ==> Registered(db, m);
    }
  }

  /** Packs that lose their registry stay unique, and keep their rows, links and assets. */
  lemma DeleteRegistryKeepsInv(db: Db, r: Id)
    requires Inv(db) && RegistryDeleted(db, r).Ok?
    ensures Inv(RegistryDeleted(db, r).value)
  {
    var packs := Localised(db.packs, r);
    InvIsFresh(db);
    assert UniquePacks(db.packs);
    hide Inv, UniquePacks;
    LocalisedUnique(db, r);
    PacksOnly(db, packs, db.next);
    assert db.(packs := packs, next := db.next) == db.(packs := packs);
  }

  lemma LocalisedUnique(db: Db, r: Id)
    requires UniquePacks(db.packs) && RegistryDeleted(db, r).Ok?
    ensures UniquePacks(Localised(db.packs, r))
  {
  }

  lemma CreateRowKeepsInv(db: Db, kind: Kind, name: string, body: Body)
    requires Inv(db) && WithRow(db, kind, name, body).Ok?
    ensures Inv(WithRow(db, kind, name, body).value)
  {
    InvIsFresh(db);
    RowsSound(db);
    var key, row := Key(kind, db.next), Row(name, body, None);
    var rows := db.rows[key := row];
    assert db.rows - {key} == db.rows;
    hide Inv, UniqueNames, TakenNames, ColumnsAccept;
    NewNameKeepsUnique(db.rows, key, row);
    assert ColumnsSound(rows);
    hide ColumnsSound;
    RowsOnly(db, rows, db.next + 1);
  }

  lemma RowsSound(db: Db)
    requires Inv(db)
    ensures UniqueNames(db.rows) && ColumnsSound(db.rows)
  {
  }

  lemma NewNameKeepsUnique(rows: map<Key, Row>, key: Key, row: Row)
    requires UniqueNames(rows) && row.name !in TakenNames(rows - {key}, key.kind)
    ensures UniqueNames(rows[key := row])
  {
    var others := rows - {key};
    forall k | k in others && k.kind == key.kind ensures rows[k].name != row.name {
      assert others[k].name in TakenNames(others, key.kind) <==> true;
    }
  }

  lemma EditRowKeepsInv(db: Db, key: Key, name: string, body: Body)
    requires Inv(db) && Edited(db, key, name, body).Ok?
    ensures Inv(Edited(db, key, name, body).value)
  {
    if key in db.rows {
      var row := db.rows[key].(name := name, body := body);
      assert UniqueNames(db.rows) && ColumnsSound(db.rows) && forall k :: k in db.rows ==> k.id < db.next;
      NewNameKeepsUnique(db.rows, key, row);
      hide Inv, UniqueNames, TakenNames, ColumnsAccept;
      RowsOnly(db, db.rows[key := row], db.next);
      assert db.(rows := db.rows[key := row], next := db.next) == db.(rows := db.rows[key := row]);
    }
  }

  /** A user deletes a row: its links stay, and the invariant with them. */
  lemma DeleteRowKeepsInv(db: Db, key: Key)
    requires Inv(db)
    ensures Inv(db.(rows := db.rows - {key}))
  {
    var rows := db.rows - {key};
    assert UniqueNames(rows) && ColumnsSound(rows) && forall k :: k in rows ==> k.id < db.next;
    hide Inv, UniqueNames, ColumnsSound;
    RowsOnly(db, rows, db.next);
    assert db.(rows := rows, next := db.next) == db.(rows := rows);
  }

  lemma ApplyKeepsInv(db: Db, op: Op)
    requires Inv(db)
    ensures Inv(Apply(db, op))
  {
    hide Inv, Install, Uninstalled, Deleted, RegistryDeleted, Added, Replaced, WithRow, Edited, Acceptable, Registered, ValidPackId;
    match op
    case CreatePack(m) =>
      if Create(db, m).Ok? { AddKeepsInv(db, m); }
    case SyncPack(m) =>
      if !Registered(db, m) {
        if Sync(db, None, m).Ok? { AddKeepsInv(db, m); }
      } else {
        forall q | q in db.packs && Sync(db, Some(q), m).Ok? ensures Inv(Sync(db, Some(q), m).value.0) {
          ReplaceKeepsInv(db, q, m);
        }
        assert exists q :: q in db.packs && SamePack(db.packs[q], m) by { RegisteredWitness(db, m); }
      }
    case PatchPack(p, version, sha) =>
      if p in db.packs { EditPackKeepsInv(db, p, Patched(db, p, version, sha).packs[p]); }
    case InstallPack(p, mode) =>
      if Install(db, p, mode).Ok? { InstallKeepsInv(db, p, mode); }
    case UninstallPack(p) =>
      if p in db.packs { UninstallKeepsInv(db, p); }
    case UpdatePack(p, mode) =>
      if p in db.packs {
        UninstallKeepsInv(db, p);
        if Install(Uninstalled(db, p), p, mode).Ok? { InstallKeepsInv(Uninstalled(db, p), p, mode); }
      }
    case DeletePack(p) =>
      if p in db.packs { DeleteKeepsInv(db, p); }
    case DeleteRegistry(r) =>
      if RegistryDeleted(db, r).Ok? { DeleteRegistryKeepsInv(db, r); }
    case CreateRow(kind, name, body) =>
      if WithRow(db, kind, name, body).Ok? { CreateRowKeepsInv(db, kind, name, body); }
    case EditRow(key, name, body) =>
      if Edited(db, key, name, body).Ok? { EditRowKeepsInv(db, key, name, body); }
    case DeleteRow(key) => DeleteRowKeepsInv(db, key);
  }

  lemma RegisteredWitness(db: Db, m: Manifest)
    requires Registered(db, m)
    ensures exists q :: q in db.packs && SamePack(db.packs[q], m)
  {
  }

  /** Every state that transactions and users can reach satisfies the invariant. */
  lemma {:induction false} ReachableInv(ops: seq<Op>)
    ensures Inv(Run(EMPTY, ops))
  {
    if ops != [] {
      var n := |ops| - 1;
      ReachableInv(ops[..n]);
      ApplyKeepsInv(Run(EMPTY, ops[..n]), ops[n]);
    }
  }
}
