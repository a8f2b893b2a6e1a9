/** The tables behind template packs and what each transaction does to them. */
module PackDb {
  import opened Prelude
  import opened Utf8
  import opened Names
  import opened Assets
  import opened PackContent

  type Id = nat

  /** Primary key of a row of `commands` or of `scripts`. */
  datatype Key = Key(kind: Kind, id: Id)

  datatype Row = Row(name: string, body: Body, owner: Option<Id>)

  datatype Link = Link(pack: Id, target: Key)

  datatype Pack = Pack(
    registry: Option<Id>,
    slug: string,
    version: string,
    manifestSha: Option<string>,
    commands: seq<Item>,
    scripts: seq<Item>,
    installed: Option<string>)

  /** `next` stands for uuid4: an id that no row has used. */
  datatype Db = Db(
    packs: map<Id, Pack>,
    rows: map<Key, Row>,
    links: map<Id, Link>,
    assets: map<(Id, string), Asset>,
    next: Id)

  const EMPTY := Db(map[], map[], map[], map[], 0)

  datatype PackError =
    | PackNotFound
    | AlreadyInstalled
    | NameClash(kind: Kind, name: string)
    | DuplicatePack
    | InvalidPackId
    | InvalidAssets
    | IntegrityError

  /** One entry of a PackInstallResultDTO; it is a success iff it has an entity id. */
  datatype ItemResult = ItemResult(kind: Kind, id: Option<Id>, name: string)

  datatype InstallResult = InstallResult(succeeded: nat, failed: nat, results: seq<ItemResult>)

  // ----- install ------------------------------------------------------------------

  /** SELECT name FROM commands (or scripts) */
  function TakenNames(rows: map<Key, Row>, kind: Kind): set<string> {
    set key | key in rows && key.kind == kind :: rows[key].name
  }

  /** One draft becomes a row and a link to it, and the pack is marked. */
  function Put(db: Db, p: Id, d: Draft): Db
    requires p in db.packs
  {
    var key := Key(d.kind, db.next);
    db.(rows := db.rows[key := Row(d.name, d.body, Some(p))],
        links := db.links[db.next + 1 := Link(p, key)],
        packs := db.packs[p := db.packs[p].(installed := Some(db.packs[p].version))],
        next := db.next + 2)
  }

  function Written(db: Db, p: Id, drafts: seq<Draft>): (after: Db)
    requires p in db.packs
    ensures p in after.packs && after.next == db.next + 2 * |drafts|
  {
    if drafts == [] then db else Put(Written(db, p, drafts[..|drafts| - 1]), p, drafts[|drafts| - 1])
  }

  function Successes(drafts: seq<Draft>, base: Id): (results: seq<ItemResult>)
    ensures |results| == |drafts|
  {
    seq(|drafts|, i requires 0 <= i < |drafts| => ItemResult(drafts[i].kind, Some(base + 2 * i), drafts[i].name))
  }

  function Failures(kind: Kind, names: seq<string>): (results: seq<ItemResult>)
    ensures |results| == |names|
  {
    seq(|names|, i requires 0 <= i < |names| => ItemResult(kind, None, names[i]))
  }

  /** What an installation is going to do, before any write. */
  datatype Agenda = Agenda(commandNames: seq<string>, scriptNames: seq<string>, drafts: seq<Draft>, rejects: seq<ItemResult>)

  function Prepare(rows: map<Key, Row>, pack: Pack, mode: OnConflict): (r: Result<Agenda, PackError>)
    ensures r.Ok? ==> |r.value.commandNames| == |pack.commands| && |r.value.scriptNames| == |pack.scripts|
  {
    match Plan(Mapped(ItemName, pack.commands), TakenNames(rows, Command), mode)
    case Err(name) => Err(NameClash(Command, name))
    case Ok(commandNames) =>
      match Plan(Mapped(ItemName, pack.scripts), TakenNames(rows, Script), mode)
      case Err(name) => Err(NameClash(Script, name))
      case Ok(scriptNames) =>
        var drafts := Drafts(Command, commandNames, pack.commands) + Drafts(Script, scriptNames, pack.scripts);
        var rejects := Failures(Command, Rejects(Command, commandNames, pack.commands))
                       + Failures(Script, Rejects(Script, scriptNames, pack.scripts));
        Ok(Agenda(commandNames, scriptNames, drafts, rejects))
  }

  /** The flush meets the columns and the CHECK constraint. */
  predicate FlushAccepts(drafts: seq<Draft>) {
    forall d :: d in drafts ==> ColumnsAccept(d.body)
  }

  function Report(agenda: Agenda, base: Id): InstallResult {
    InstallResult(|agenda.drafts|, |agenda.rejects|, Successes(agenda.drafts, base) + agenda.rejects)
  }

  function Install(db: Db, p: Id, mode: OnConflict): Result<(Db, InstallResult), PackError> {
    if p !in db.packs then Err(PackNotFound)
    else if db.packs[p].installed.Some? then Err(AlreadyInstalled)
    else
      match Prepare(db.rows, db.packs[p], mode)
      case Err(e) => Err(e)
      case Ok(agenda) =>
        if !FlushAccepts(agenda.drafts) then Err(IntegrityError)
        else Ok((Written(db, p, agenda.drafts), Report(agenda, db.next)))
  }

  // ----- uninstall, update, delete ---------------------------------------------------

  function LinksOf(db: Db, p: Id): set<Id> {
    set l | l in db.links && db.links[l].pack == p
  }

  function Targets(db: Db, p: Id): set<Key> {
    set l | l in db.links && db.links[l].pack == p :: db.links[l].target
  }

  function Uninstalled(db: Db, p: Id): Db
    requires p in db.packs
  {
    db.(rows := db.rows - Targets(db, p),
        links := db.links - LinksOf(db, p),
        packs := db.packs[p := db.packs[p].(installed := None)])
  }

  function Update(db: Db, p: Id, mode: OnConflict): Result<(Db, InstallResult), PackError> {
    if p !in db.packs then Err(PackNotFound) else Install(Uninstalled(db, p), p, mode)
  }

  /** ON DELETE SET NULL on the owner column. */
  function Disowned(rows: map<Key, Row>, p: Id): map<Key, Row> {
    map key | key in rows :: if rows[key].owner == Some(p) then rows[key].(owner := None) else rows[key]
  }

  /** ON DELETE CASCADE on links and on assets. */
  function LinksWithout(links: map<Id, Link>, p: Id): map<Id, Link> {
    map l | l in links && links[l].pack != p :: links[l]
  }

  function WithoutAssets(assets: map<(Id, string), Asset>, p: Id): map<(Id, string), Asset> {
    map a | a in assets && a.0 != p :: assets[a]
  }

  function Deleted(db: Db, p: Id): Db
    requires p in db.packs
  {
    var bare := Uninstalled(db, p);
    Db(bare.packs - {p},
       Disowned(bare.rows, p),
       LinksWithout(bare.links, p),
       WithoutAssets(bare.assets, p),
       bare.next)
  }

  // ----- create, sync, patch -----------------------------------------------------------

  predicate IsAlnum(c: char) { 'a' <= c <= 'z' || 'A' <= c <= 'Z' || '0' <= c <= '9' }

  /** `PACK_ID_RE` and the length bound. */
  predicate ValidPackId(slug: string) {
    1 <= |slug| <= 100 && IsAlnum(slug[0]) && forall c :: c in slug ==> IsAlnum(c) || c in {'_', '.', '-'}
  }

  datatype Manifest = Manifest(
    registry: Option<Id>,
    slug: string,
    version: string,
    manifestSha: Option<string>,
    commands: seq<Item>,
    scripts: seq<Item>,
    uploads: seq<Upload>)

  predicate SamePack(pack: Pack, m: Manifest) { pack.registry == m.registry && pack.slug == m.slug }

  predicate Registered(db: Db, m: Manifest) {
    exists p :: p in db.packs && SamePack(db.packs[p], m)
  }

  function WithAssets(assets: map<(Id, string), Asset>, p: Id, decoded: Decoded): map<(Id, string), Asset> {
    if decoded == [] then assets
    else
      var n := |decoded| - 1;
      WithAssets(assets, p, decoded[..n])[(p, decoded[n].0) := StoreAsset(decoded[n].1)]
  }

  function Added(db: Db, m: Manifest): Db {
    db.(packs := db.packs[db.next := Pack(m.registry, m.slug, m.version, m.manifestSha, m.commands, m.scripts, None)],
        assets := WithAssets(db.assets, db.next, Payloads(m.uploads)),
        next := db.next + 1)
  }

  function Create(db: Db, m: Manifest): Result<(Db, Id), PackError> {
    if !ValidPackId(m.slug) then Err(InvalidPackId)
    else if !Acceptable(m.uploads) then Err(InvalidAssets)
    else if Registered(db, m) then Err(DuplicatePack)
    else Ok((Added(db, m), db.next))
  }

  function Replaced(db: Db, p: Id, m: Manifest): Db
    requires p in db.packs
  {
    var pack := db.packs[p].(version := m.version, manifestSha := m.manifestSha, commands := m.commands, scripts := m.scripts);
    db.(packs := db.packs[p := pack],
        assets := WithAssets(WithoutAssets(db.assets, p), p, Payloads(m.uploads)))
  }

  datatype Outcome = Created | Updated | Unchanged

  /** `upsert_synced_pack`; `p` is the registered pack, if there is one. */
  function Sync(db: Db, p: Option<Id>, m: Manifest): Result<(Db, Outcome), PackError>
    requires p.Some? ==> p.value in db.packs
  {
    if !ValidPackId(m.slug) then Err(InvalidPackId)
    else if !Acceptable(m.uploads) then Err(InvalidAssets)
    else
      match p
      case None => Ok((Added(db, m), Created))
      case Some(q) =>
        if db.packs[q].manifestSha == m.manifestSha then Ok((db, Unchanged))
        else Ok((Replaced(db, q, m), Updated))
  }

  /** The pack of this registry and slug: the row that the query of a sync returns. */
  ghost predicate Finds(db: Db, m: Manifest, p: Option<Id>) {
    match p
    case None => !Registered(db, m)
    case Some(q) => q in db.packs && SamePack(db.packs[q], m)
  }

  /** `patch_pack`: fields that are None stay as they are. */
  function Patched(db: Db, p: Id, version: Option<string>, sha: Option<string>): Db
    requires p in db.packs
  {
    var pack := db.packs[p];
    db.(packs := db.packs[p := pack.(
          version := if version.Some? then version.value else pack.version,
          manifestSha := if sha.Some? then sha else pack.manifestSha)])
  }

  /** ON DELETE SET NULL on the registry column: the packs of a deleted registry become local ones. */
  function Localised(packs: map<Id, Pack>, r: Id): map<Id, Pack> {
    map p | p in packs :: if packs[p].registry == Some(r) then packs[p].(registry := None) else packs[p]
  }

  /** `delete_registry`: the unique index on local packs refuses it when a pack of the registry has the
      slug of a local one. */
  function RegistryDeleted(db: Db, r: Id): Result<Db, PackError> {
    if exists p, q :: p in db.packs && q in db.packs && db.packs[p].registry == Some(r)
                      && db.packs[q].registry == None && db.packs[p].slug == db.packs[q].slug
    then Err(IntegrityError)
    else Ok(db.(packs := Localised(db.packs, r)))
  }

  // ----- the archive ---------------------------------------------------------------------

  function PathsOf(assets: map<(Id, string), Asset>, p: Id): set<string> {
    set a | a in assets && a.0 == p :: a.1
  }

  /** Any order in which a query may return the assets of a pack. */
  predicate Enumerates(order: seq<string>, paths: set<string>) {
    Distinct(order) && Range(order) == paths
  }

  /** `get_assets_tar` over a snapshot in the given order; unsafe stored paths are skipped. */
  function Tar(assets: map<(Id, string), Asset>, p: Id, order: seq<string>): seq<(string, seq<Byte>)>
    requires forall path :: path in order ==> (p, path) in assets
  {
    if order == [] then []
    else
      var path := order[|order| - 1];
      Tar(assets, p, order[..|order| - 1]) + (if ValidPath(path) then [(path, ReadAsset(assets[(p, path)]))] else [])
  }

  /** Unpacking: a later entry overwrites an earlier one of the same name. */
  function Extract(entries: seq<(string, seq<Byte>)>): map<string, seq<Byte>> {
    if entries == [] then map[]
    else
      var e := entries[|entries| - 1];
      Extract(entries[..|entries| - 1])[e.0 := e.1]
  }

  // ----- rows edited by users ----------------------------------------------------------

  function WithRow(db: Db, kind: Kind, name: string, body: Body): Result<Db, PackError> {
    if name in TakenNames(db.rows, kind) || !ColumnsAccept(body) then Err(IntegrityError)
    else Ok(db.(rows := db.rows[Key(kind, db.next) := Row(name, body, None)], next := db.next + 1))
  }

  function Edited(db: Db, key: Key, name: string, body: Body): Result<Db, PackError> {
    if key !in db.rows then Ok(db)
    else if name in TakenNames(db.rows - {key}, key.kind) || !ColumnsAccept(body) then Err(IntegrityError)
    else Ok(db.(rows := db.rows[key := db.rows[key].(name := name, body := body)]))
  }

  // ----- runs ----------------------------------------------------------------------------

  datatype Op =
    | CreatePack(m: Manifest)
    | SyncPack(m: Manifest)
    | PatchPack(p: Id, version: Option<string>, sha: Option<string>)
    | InstallPack(p: Id, mode: OnConflict)
    | UninstallPack(p: Id)
    | UpdatePack(p: Id, mode: OnConflict)
    | DeletePack(p: Id)
    | DeleteRegistry(r: Id)
    | CreateRow(kind: Kind, name: string, body: Body)
    | EditRow(key: Key, name: string, body: Body)
    | DeleteRow(key: Key)

  /** One transaction: an error leaves the tables as they were. */
  ghost function Apply(db: Db, op: Op): Db {
    match op
    case CreatePack(m) => (match Create(db, m) case Ok(r) => r.0 case Err(_) => db)
    case SyncPack(m) =>
      var p: Option<Id> := if Registered(db, m) then (var q :| q in db.packs && SamePack(db.packs[q], m); Some(q)) else None;
      (match Sync(db, p, m) case Ok(r) => r.0 case Err(_) => db)
    case PatchPack(p, version, sha) => if p in db.packs then Patched(db, p, version, sha) else db
    case InstallPack(p, mode) => (match Install(db, p, mode) case Ok(r) => r.0 case Err(_) => db)
    case UninstallPack(p) => if p in db.packs then Uninstalled(db, p) else db
    case UpdatePack(p, mode) => (match Update(db, p, mode) case Ok(r) => r.0 case Err(_) => db)
    case DeletePack(p) => if p in db.packs then Deleted(db, p) else db
    case DeleteRegistry(r) => (match RegistryDeleted(db, r) case Ok(d) => d case Err(_) => db)
    case CreateRow(kind, name, body) => (match WithRow(db, kind, name, body) case Ok(d) => d case Err(_) => db)
    case EditRow(key, name, body) => (match Edited(db, key, name, body) case Ok(d) => d case Err(_) => db)
    case DeleteRow(key) => db.(rows := db.rows - {key})
  }

  ghost function Run(db: Db, ops: seq<Op>): Db {
    if ops == [] then db else Apply(Run(db, ops[..|ops| - 1]), ops[|ops| - 1])
  }
}
