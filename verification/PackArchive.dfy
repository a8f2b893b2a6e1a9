/** The files of a pack: from an upload through storage and the archive back to files. */
module PackArchive {
  import opened Prelude
  import opened Utf8
  import opened Names
  import opened Assets
  import opened PackDb
  import opened PackInvariant

  /** The bytes behind the stored assets of a pack. */
  function Contents(assets: map<(Id, string), Asset>, p: Id): map<string, seq<Byte>> {
    map path | path in PathsOf(assets, p) :: ReadAsset(assets[(p, path)])
  }

  /** Unpacking the archive gives every stored file once, in whatever order rows were read:
      no validated path is skipped and none overwrites another. */
  lemma {:induction false} TarExtracts(assets: map<(Id, string), Asset>, p: Id, order: seq<string>)
    requires Distinct(order)
    requires forall path :: path in order ==> (p, path) in assets && ValidPath(path)
    ensures |Tar(assets, p, order)| == |order|
    ensures Extract(Tar(assets, p, order)) == map path | path in order :: ReadAsset(assets[(p, path)])
  {
    hide ValidPath, ReadAsset;
    if order != [] {
      var n := |order| - 1;
      var path := order[n];
      TarExtracts(assets, p, order[..n]);
      var entries := Tar(assets, p, order);
      assert path in order;
      assert entries[..|entries| - 1] == Tar(assets, p, order[..n]);
      assert forall x :: x in order <==> x in order[..n] || x == path;
    }
  }

  /** In every reachable state the archive of a pack unpacks to its stored contents. */
  lemma ArchiveIsComplete(db: Db, p: Id, order: seq<string>)
    requires Inv(db) && Enumerates(order, PathsOf(db.assets, p))
    ensures forall path :: path in order ==> (p, path) in db.assets
    ensures |Tar(db.assets, p, order)| == |PathsOf(db.assets, p)|
    ensures Extract(Tar(db.assets, p, order)) == Contents(db.assets, p)
  {
    forall path | path in order ensures (p, path) in db.assets && ValidPath(path) {
      assert path in Range(order);
    }
    TarExtracts(db.assets, p, order);
    DistinctSize(order);
    hide Inv, Tar, Extract, ReadAsset, ValidPath;
    assert forall path :: path in order <==> path in PathsOf(db.assets, p) by {
      assert forall path :: path in order <==> path in Range(order);
    }
  }

  lemma {:induction false} DistinctSize(s: seq<string>)
    requires Distinct(s)
    ensures |Range(s)| == |s|
  {
    if s == [] {
      assert Range(s) == {};
    } else {
      var n := |s| - 1;
      DistinctSize(s[..n]);
      assert s == s[..n] + [s[n]];
      RangeSnoc(s[..n], s[n]);
    }
  }

  lemma {:induction false} WithAssetsContents(assets: map<(Id, string), Asset>, p: Id, uploads: seq<Upload>)
    requires DistinctPaths(uploads) && PathsOf(assets, p) == {}
    ensures Contents(WithAssets(assets, p, Payloads(uploads)), p) == Files(uploads)
  {
    if uploads == [] {
      assert Payloads(uploads) == [];
      assert Contents(assets, p) == map[];
    } else {
      var n := |uploads| - 1;
      WithAssetsContents(assets, p, uploads[..n]);
      assert Payloads(uploads)[..n] == Payloads(uploads[..n]);
      var before := WithAssets(assets, p, Payloads(uploads[..n]));
      ReadStoredAsset(BytesOf(uploads[n]));
      StoreContents(before, p, uploads[n].path, StoreAsset(BytesOf(uploads[n])));
      hide WithAssets, Contents, StoreAsset, ReadAsset, BytesOf;
      FilesSnoc(uploads);
    }
  }

  lemma StoreContents(assets: map<(Id, string), Asset>, p: Id, path: string, asset: Asset)
    ensures Contents(assets[(p, path) := asset], p) == Contents(assets, p)[path := ReadAsset(asset)]
  {
    hide ReadAsset;
    var after := assets[(p, path) := asset];
    forall x ensures x in PathsOf(after, p) <==> x in PathsOf(assets, p) || x == path {
      assert x in PathsOf(after, p) <==> (p, x) in after;
      assert x in PathsOf(assets, p) <==> (p, x) in assets;
    }
  }

  lemma FilesSnoc(uploads: seq<Upload>)
    requires DistinctPaths(uploads) && uploads != []
    ensures var n := |uploads| - 1;
            Files(uploads) == Files(uploads[..n])[uploads[n].path := BytesOf(uploads[n])]
  {
    hide BytesOf;
    var n := |uploads| - 1;
    assert forall i :: 0 <= i < n ==> uploads[..n][i] == uploads[i];
  }

  lemma FilesAt(uploads: seq<Upload>)
    requires DistinctPaths(uploads)
    ensures forall i :: 0 <= i < |uploads| ==>
              uploads[i].path in Files(uploads) && Files(uploads)[uploads[i].path] == BytesOf(uploads[i])
    ensures forall path :: path in Files(uploads) ==> exists i :: 0 <= i < |uploads| && uploads[i].path == path
  {
  }

  lemma {:induction false} WithAssetsFrame(assets: map<(Id, string), Asset>, p: Id, decoded: Decoded, q: Id)
    requires q != p
    ensures Contents(WithAssets(assets, p, decoded), q) == Contents(assets, q)
  {
    hide StoreAsset, ReadAsset;
    if decoded != [] {
      var n := |decoded| - 1;
      WithAssetsFrame(assets, p, decoded[..n], q);
      var before := WithAssets(assets, p, decoded[..n]);
      OtherContents(before, before[(p, decoded[n].0) := StoreAsset(decoded[n].1)], q);
    }
  }

  lemma OtherContents(assets: map<(Id, string), Asset>, after: map<(Id, string), Asset>, q: Id)
    requires forall path :: ((q, path) in after <==> (q, path) in assets)
    requires forall path :: (q, path) in assets ==> after[(q, path)] == assets[(q, path)]
    ensures Contents(after, q) == Contents(assets, q)
  {
    hide ReadAsset;
    forall path ensures path in PathsOf(after, q) <==> path in PathsOf(assets, q) {
      assert path in PathsOf(after, q) <==> (q, path) in after;
      assert path in PathsOf(assets, q) <==> (q, path) in assets;
    }
  }

  /** The stored pack is the one that the manifest describes. */
  predicate Describes(m: Manifest, pack: Pack) {
    && pack.registry == m.registry && pack.slug == m.slug && pack.version == m.version && pack.manifestSha == m.manifestSha
    && pack.commands == m.commands && pack.scripts == m.scripts
  }

  /** Nothing but this pack and its files may differ. */
  ghost predicate OtherPacksSame(before: map<Id, Pack>, after: map<Id, Pack>, p: Id) {
    forall q :: q != p ==> (q in after <==> q in before) && (q in before ==> after[q] == before[q])
  }

  ghost predicate OtherFilesSame(before: map<(Id, string), Asset>, after: map<(Id, string), Asset>, p: Id) {
    forall q, path :: q != p ==>
      ((q, path) in after <==> (q, path) in before) && ((q, path) in before ==> after[(q, path)] == before[(q, path)])
  }

  ghost predicate OnlyPack(before: Db, after: Db, p: Id) {
    && after.rows == before.rows && after.links == before.links
    && OtherPacksSame(before.packs, after.packs, p) && OtherFilesSame(before.assets, after.assets, p)
  }

  lemma {:induction false} WithAssetsElsewhere(assets: map<(Id, string), Asset>, p: Id, decoded: Decoded)
    ensures OtherFilesSame(assets, WithAssets(assets, p, decoded), p)
  {
    hide StoreAsset;
    if decoded != [] {
      WithAssetsElsewhere(assets, p, decoded[..|decoded| - 1]);
    }
  }

  /** Creating a pack stores the pack that the manifest describes, not installed, and exactly the uploaded
      files; it touches no other pack, file or row. */
  lemma CreateStoresUploads(db: Db, m: Manifest, q: Id)
    requires Inv(db) && Create(db, m).Ok?
    ensures var (after, p) := Create(db, m).value;
            && p !in db.packs && p in after.packs && Describes(m, after.packs[p]) && after.packs[p].installed == None
            && Contents(after.assets, p) == Files(m.uploads)
            && (q != p ==> Contents(after.assets, q) == Contents(db.assets, q))
            && OnlyPack(db, after, p)
  {
    assert PathsOf(db.assets, db.next) == {} && db.next !in db.packs;
    AddedStoresUploads(db, m);
    hide *;
    if q != db.next {
      AddedFrame(db, m, q);
    }
    CreateIsAdded(db, m);
  }

  lemma CreateIsAdded(db: Db, m: Manifest)
    requires Create(db, m).Ok?
    ensures Create(db, m).value == (Added(db, m), db.next) && Acceptable(m.uploads)
  {
  }

  lemma AddedFrame(db: Db, m: Manifest, q: Id)
    requires Acceptable(m.uploads) && q != db.next
    ensures Contents(Added(db, m).assets, q) == Contents(db.assets, q)
  {
    WithAssetsFrame(db.assets, db.next, Payloads(m.uploads), q);
  }

  lemma AddedStoresUploads(db: Db, m: Manifest)
    requires Acceptable(m.uploads) && PathsOf(db.assets, db.next) == {}
    ensures var (after, p) := (Added(db, m), db.next);
            && p in after.packs && Describes(m, after.packs[p]) && after.packs[p].installed == None
            && Contents(after.assets, p) == Files(m.uploads)
            && OnlyPack(db, after, p)
  {
    WithAssetsElsewhere(db.assets, db.next, Payloads(m.uploads));
    WithAssetsContents(db.assets, db.next, m.uploads);
    OnePackSet(db.packs, db.next, Added(db, m).packs[db.next]);
    hide Contents, Files, WithAssets, Acceptable, OtherFilesSame, OtherPacksSame;
  }

  lemma OnePackSet(packs: map<Id, Pack>, p: Id, pack: Pack)
    ensures OtherPacksSame(packs, packs[p := pack], p)
  {
  }

  /** A sync that creates or updates stores the pack that the manifest describes and exactly the uploaded
      files; whether the pack is installed stays as it was. */
  lemma SyncStoresUploads(db: Db, p: Option<Id>, m: Manifest)
    requires Inv(db) && Finds(db, m, p) && Sync(db, p, m).Ok?
    ensures var (after, outcome) := Sync(db, p, m).value;
            var id := if p.Some? then p.value else db.next;
            && id in after.packs && after.packs[id].registry == m.registry && after.packs[id].slug == m.slug
            && (outcome != Unchanged ==> Describes(m, after.packs[id]) && Contents(after.assets, id) == Files(m.uploads))
            && after.packs[id].installed == (if p.Some? then db.packs[id].installed else None)
            && (outcome == Unchanged ==> after == db)
            && (outcome == Unchanged <==> p.Some? && db.packs[id].manifestSha == m.manifestSha)
            && (outcome == Created <==> p.None?)
            && OnlyPack(db, after, id)
  {
    hide Inv, Acceptable, ValidPackId, Contents, Files, Added, Replaced, OnlyPack, Registered;
    if p.None? {
      CreateStoresUploads(db, m, db.next);
    } else {
      ReplaceStoresUploads(db, p.value, m);
      NothingDiffers(db, p.value);
    }
  }

  lemma NothingDiffers(db: Db, p: Id)
    ensures OnlyPack(db, db, p)
  {
  }

  lemma ReplaceStoresUploads(db: Db, p: Id, m: Manifest)
    requires p in db.packs && SamePack(db.packs[p], m) && Acceptable(m.uploads)
    ensures var after := Replaced(db, p, m);
            && p in after.packs && Describes(m, after.packs[p]) && after.packs[p].installed == db.packs[p].installed
            && Contents(after.assets, p) == Files(m.uploads)
            && OnlyPack(db, after, p)
  {
    var kept := WithoutAssets(db.assets, p);
    assert PathsOf(kept, p) == {};
    assert OtherFilesSame(db.assets, kept, p);
    hide PathsOf, Contents, Files, WithAssets, WithoutAssets, Acceptable;
    WithAssetsElsewhere(kept, p, Payloads(m.uploads));
    WithAssetsContents(kept, p, m.uploads);
    FilesSameTwice(db.assets, kept, Replaced(db, p, m).assets, p);
    OnePackSet(db.packs, p, Replaced(db, p, m).packs[p]);
    hide OtherFilesSame, OtherPacksSame;
  }

  lemma FilesSameTwice(a: map<(Id, string), Asset>, b: map<(Id, string), Asset>, c: map<(Id, string), Asset>, p: Id)
    requires OtherFilesSame(a, b, p) && OtherFilesSame(b, c, p)
    ensures OtherFilesSame(a, c, p)
  {
  }

  lemma SyncKeepsInv(db: Db, p: Option<Id>, m: Manifest)
    requires Inv(db) && Finds(db, m, p) && Sync(db, p, m).Ok?
    ensures Inv(Sync(db, p, m).value.0)
  {
    hide Inv, Added, Replaced, Registered, Acceptable;
    if p.None? {
      AddKeepsInv(db, m);
    } else {
      ReplaceKeepsInv(db, p.value, m);
    }
  }

  /** After a sync the archive, fetched in any row order and unpacked, holds the uploaded files iff the
      manifest digest was new or the files were already stored: an equal digest, even an absent one,
      keeps the old files. */
  lemma SyncRoundTripIff(db: Db, p: Option<Id>, m: Manifest, order: seq<string>)
    requires Inv(db) && Finds(db, m, p) && Sync(db, p, m).Ok?
    requires Enumerates(order, PathsOf(Sync(db, p, m).value.0.assets, if p.Some? then p.value else db.next))
    ensures var (after, outcome) := Sync(db, p, m).value;
            var id := if p.Some? then p.value else db.next;
            && (forall path :: path in order ==> (id, path) in after.assets)
            && (Extract(Tar(after.assets, id, order)) == Files(m.uploads)
                <==> !(p.Some? && db.packs[id].manifestSha == m.manifestSha) || Contents(db.assets, id) == Files(m.uploads))
  {
    SyncStoresUploads(db, p, m);
    SyncKeepsInv(db, p, m);
    ArchiveIsComplete(Sync(db, p, m).value.0, if p.Some? then p.value else db.next, order);
    hide Inv, Sync, Contents, Tar, Extract, Files, Finds, Enumerates;
  }

  /** Two syncs of one new pack with the same digest, absent ones included: the files of the second
      never arrive. */
  lemma SecondSyncChangesNothing(m1: Manifest, m2: Manifest)
    requires ValidPackId(m1.slug) && Acceptable(m1.uploads) && Acceptable(m2.uploads)
    requires m2.registry == m1.registry && m2.slug == m1.slug && m2.manifestSha == m1.manifestSha
    ensures Run(EMPTY, [SyncPack(m1), SyncPack(m2)]) == Run(EMPTY, [SyncPack(m1)])
    ensures Contents(Run(EMPTY, [SyncPack(m1)]).assets, 0) == Files(m1.uploads)
  {
    var ops := [SyncPack(m1), SyncPack(m2)];
    assert ops[..1] == [SyncPack(m1)] && [SyncPack(m1)][..0] == [];
    EmptySync(m1);
    SyncIntoEmpty(m1);
    SyncAgain(m1, m2);
    assert Run(EMPTY, []) == EMPTY;
    hide Acceptable, ValidPackId, Contents, Files, Apply, Added;
    assert Run(EMPTY, [SyncPack(m1)]) == Apply(EMPTY, SyncPack(m1));
  }

  lemma SyncIntoEmpty(m: Manifest)
    requires ValidPackId(m.slug) && Acceptable(m.uploads)
    ensures Apply(EMPTY, SyncPack(m)) == Added(EMPTY, m)
  {
    assert !Registered(EMPTY, m);
    hide Acceptable, ValidPackId, Added, Registered;
  }

  lemma SyncAgain(m1: Manifest, m2: Manifest)
    requires ValidPackId(m2.slug) && Acceptable(m2.uploads)
    requires m2.registry == m1.registry && m2.slug == m1.slug && m2.manifestSha == m1.manifestSha
    ensures Apply(Added(EMPTY, m1), SyncPack(m2)) == Added(EMPTY, m1)
  {
    var db := Added(EMPTY, m1);
    assert db.packs.Keys == {0} && 0 in db.packs && SamePack(db.packs[0], m2) && db.packs[0].manifestSha == m2.manifestSha;
    assert Registered(db, m2);
    hide Acceptable, ValidPackId, Added, Registered, Replaced;
  }

  lemma EmptySync(m: Manifest)
    requires Acceptable(m.uploads)
    ensures Contents(Added(EMPTY, m).assets, 0) == Files(m.uploads)
  {
    assert PathsOf(EMPTY.assets, 0) == {};
    WithAssetsContents(EMPTY.assets, 0, m.uploads);
  }

  /** For example, a sync of file `a` and then one of file `b`: the archive still holds `a`.  With a
      digest that is the case of files changed beside an unchanged manifest, whose bytes alone the digest
      covers; without one, that of any two syncs. */
  lemma EqualDigestsKeepOldFiles(sha: Option<string>, version: string)
    ensures var first := Manifest(Some(1), "demo", "1.0", sha, [], [], [Upload("a", "")]);
            var second := Manifest(Some(1), "demo", version, sha, [], [], [Upload("b", "")]);
            var db := Run(EMPTY, [SyncPack(first), SyncPack(second)]);
            && Acceptable(second.uploads)
            && "a" in Contents(db.assets, 0) && "b" !in Contents(db.assets, 0)
  {
    OneEmptyFile("a");
    OneEmptyFile("b");
    assert ValidPackId("demo");
    hide *;
    var first := Manifest(Some(1), "demo", "1.0", sha, [], [], [Upload("a", "")]);
    var second := Manifest(Some(1), "demo", version, sha, [], [], [Upload("b", "")]);
    SecondSyncChangesNothing(first, second);
    FilesOfOne(first.uploads[0]);
  }

  lemma FilesOfOne(upload: Upload)
    ensures DistinctPaths([upload]) && Files([upload]).Keys == {upload.path}
  {
    var uploads := [upload];
    FilesAt(uploads);
    hide BytesOf, Files;
    assert uploads[0].path in Files(uploads);
  }

  lemma OneEmptyFile(path: string)
    requires path == "a" || path == "b"
    ensures Acceptable([Upload(path, "")])
  {
    var uploads := [Upload(path, "")];
    assert path[1..] == "" && Split("") == [""];
    assert [path[0]] + "" == path && Split(path) == [[path[0]] + ""] + [];
    assert BytesOf(uploads[0]) == [];
    assert uploads[..0] == [] && TotalSize(uploads) == 0;
  }

  /** The round trip: create a pack, fetch its archive in any row order, unpack it. */
  lemma CreateArchiveRoundTrip(db: Db, m: Manifest, order: seq<string>)
    requires Inv(db) && Create(db, m).Ok?
    requires Enumerates(order, PathsOf(Create(db, m).value.0.assets, Create(db, m).value.1))
    ensures var (after, p) := Create(db, m).value;
            && (forall path :: path in order ==> (p, path) in after.assets)
            && Extract(Tar(after.assets, p, order)) == Files(m.uploads)
  {
    var (after, p) := Create(db, m).value;
    AddKeepsInv(db, m);
    CreateStoresUploads(db, m, p);
    ArchiveIsComplete(after, p, order);
  }
}
