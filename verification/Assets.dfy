/** Pack assets: path validation, upload limits, and the text storage convention. */
module Assets {
  import opened Prelude
  import opened Utf8
  import opened Base64

  const MAX_ASSETS_PER_PACK := 100
  const MAX_ASSET_BYTES := 1_048_576
  const MAX_PACK_ASSETS_BYTES := 10_485_760

  datatype Upload = Upload(path: string, contentBase64: string)

  /** A row of `template_assets`: text plus the size of the bytes it stands for. */
  datatype Asset = Asset(content: string, size: nat)

  // ----- paths ----------------------------------------------------------------

  /** path.split("/") */
  function Split(path: string): (parts: seq<string>)
    ensures |parts| >= 1
  {
    if path == "" then [""]
    else
      var rest := Split(path[1..]);
      if path[0] == '/' then [""] + rest else [[path[0]] + rest[0]] + rest[1..]
  }

  predicate ValidPath(path: string) {
    && 1 <= |path| <= 255
    && path[0] != '/'
    && '\\' !in path
    && forall part :: part in Split(path) ==> part !in {"", ".", ".."}
  }

  function Join(parts: seq<string>): string
    requires |parts| >= 1
  {
    if |parts| == 1 then parts[0] else parts[0] + "/" + Join(parts[1..])
  }

  /** Splitting gives the only list of components without a slash that joins to the path. */
  lemma {:induction false} JoinSplit(path: string)
    ensures Join(Split(path)) == path && forall part :: part in Split(path) ==> '/' !in part
  {
    if path != "" {
      JoinSplit(path[1..]);
      var rest := Split(path[1..]);
      assert path == [path[0]] + path[1..];
      if path[0] == '/' {
        assert ([""] + rest)[1..] == rest;
      } else {
        assert rest[0] in rest && Split(path)[1..] == rest[1..];
        assert forall part :: part in Split(path) ==> part == [path[0]] + rest[0] || part in rest;
      }
    }
  }

  lemma {:induction false} SplitJoin(parts: seq<string>)
    requires |parts| >= 1 && forall part :: part in parts ==> '/' !in part
    ensures Split(Join(parts)) == parts
    decreases |parts|, |parts[0]|
  {
    var head, path := parts[0], Join(parts);
    assert head in parts;
    if head == "" {
      if |parts| > 1 {
        SplitJoin(parts[1..]);
        assert path[1..] == Join(parts[1..]);
      }
    } else {
      var shorter := [head[1..]] + parts[1..];
      assert shorter[1..] == parts[1..] && forall part :: part in shorter ==> part == head[1..] || part in parts;
      SplitJoin(shorter);
      assert head == [head[0]] + head[1..] && head[0] in head;
      assert path[1..] == Join(shorter);
    }
  }

  /** A path is valid iff it has at most 255 characters, no backslash, and is one or more components joined
      by slashes, none of them empty, a dot or two dots. */
  lemma ValidPathIff(path: string)
    ensures ValidPath(path)
            <==> && |path| <= 255 && '\\' !in path
                 && exists parts: seq<string> :: |parts| >= 1 && Join(parts) == path
                      && forall part :: part in parts ==> '/' !in part && part != "" && part != "." && part != ".."
  {
    JoinSplit(path);
    if ValidPath(path) {
      var parts := Split(path);
      assert |parts| >= 1 && Join(parts) == path;
    } else if parts: seq<string> :|
      |parts| >= 1 && Join(parts) == path && (forall part :: part in parts ==> '/' !in part && part != "" && part != "." && part != "..")
    {
      SplitJoin(parts);
      assert parts[0] in parts && parts[0][0] in parts[0] && path[0] == parts[0][0];
    }
  }

  /** Directory depth reached below the extraction root, or None once a component would
      leave it. */
  function Descend(parts: seq<string>, depth: nat): Option<nat> {
    if parts == [] then Some(depth)
    else if parts[0] == ".." then (if depth == 0 then None else Descend(parts[1..], depth - 1))
    else if parts[0] == "." || parts[0] == "" then Descend(parts[1..], depth)
    else Descend(parts[1..], depth + 1)
  }

  /** A validated path names something strictly below the root, one level per component. */
  lemma ValidPathStaysBelowRoot(path: string)
    requires ValidPath(path)
    ensures Descend(Split(path), 0) == Some(|Split(path)|)
  {
    PlainPartsDescend(Split(path), 0);
  }

  lemma {:induction false} PlainPartsDescend(parts: seq<string>, depth: nat)
    requires forall part :: part in parts ==> part !in {"", ".", ".."}
    ensures Descend(parts, depth) == Some(depth + |parts|)
  {
    if parts != [] {
      assert parts[0] in parts;
      assert forall part :: part in parts[1..] ==> part in parts;
      PlainPartsDescend(parts[1..], depth + 1);
    }
  }

  // ----- the storage convention --------------------------------------------------

  /** `write_assets_in_session`: UTF-8 text as it is, anything else as base64. */
  function StoreAsset(raw: seq<Byte>): Asset {
    match Decode(raw)
    case Some(text) => Asset(text, |raw|)
    case None => Asset(Encode64(raw), |raw|)
  }

  /** `_decode_stored_content`: the convention is recovered from the size alone. */
  function ReadAsset(asset: Asset): seq<Byte> {
    var raw := Encode(asset.content);
    if asset.size == |raw| then raw
    else
      match Decode64(asset.content)
      case Some(decoded) => if |decoded| == asset.size then decoded else raw
      case None => raw
  }

  /** Reading back inverts storing, for every byte string. */
  lemma ReadStoredAsset(raw: seq<Byte>)
    ensures ReadAsset(StoreAsset(raw)) == raw
  {
    if Decode(raw).Some? {
      EncodeDecode(raw);
    } else {
      Encode64IsLonger(raw);
      Decode64Encode64(raw);
    }
  }

  // ----- upload limits -------------------------------------------------------------

  /** The uploaded bytes; no bytes if the text is not base64. */
  function BytesOf(upload: Upload): seq<Byte> {
    match Decode64(upload.contentBase64)
    case None => []
    case Some(raw) => raw
  }

  function TotalSize(uploads: seq<Upload>): nat {
    if uploads == [] then 0 else TotalSize(uploads[..|uploads| - 1]) + |BytesOf(uploads[|uploads| - 1])|
  }

  lemma TotalSizeStep(uploads: seq<Upload>, upload: Upload)
    ensures TotalSize([]) == 0
    ensures TotalSize(uploads + [upload]) == TotalSize(uploads) + |BytesOf(upload)|
  {
    assert (uploads + [upload])[..|uploads|] == uploads;
  }

  lemma {:induction false} TotalSizePrefix(uploads: seq<Upload>, n: nat)
    requires n <= |uploads|
    ensures TotalSize(uploads[..n]) <= TotalSize(uploads)
    decreases |uploads| - n
  {
    if n == |uploads| {
      assert uploads[..n] == uploads;
    } else {
      assert uploads[..n + 1][..n] == uploads[..n];
      TotalSizePrefix(uploads, n + 1);
    }
  }

  predicate AcceptableOne(upload: Upload) {
    && ValidPath(upload.path)
    && Decode64(upload.contentBase64).Some?
    && |BytesOf(upload)| <= MAX_ASSET_BYTES
  }

  predicate DistinctPaths(uploads: seq<Upload>) {
    forall i, j :: 0 <= i < j < |uploads| ==> uploads[i].path != uploads[j].path
  }

  predicate Sound(uploads: seq<Upload>) {
    && (forall i :: 0 <= i < |uploads| ==> AcceptableOne(uploads[i]))
    && DistinctPaths(uploads)
    && TotalSize(uploads) <= MAX_PACK_ASSETS_BYTES
  }

  predicate Acceptable(uploads: seq<Upload>) {
    |uploads| <= MAX_ASSETS_PER_PACK && Sound(uploads)
  }

  predicate HasPath(uploads: seq<Upload>, path: string) {
    exists i :: 0 <= i < |uploads| && uploads[i].path == path
  }

  lemma SoundStep(uploads: seq<Upload>, upload: Upload)
    ensures Sound(uploads + [upload])
            <==> Sound(uploads) && AcceptableOne(upload) && !HasPath(uploads, upload.path)
                 && TotalSize(uploads) + |BytesOf(upload)| <= MAX_PACK_ASSETS_BYTES
  {
    hide AcceptableOne, TotalSize;
    var all := uploads + [upload];
    assert forall i :: 0 <= i < |uploads| ==> all[i] == uploads[i];
    assert all[|uploads|] == upload;
    TotalSizeStep(uploads, upload);
  }

  lemma SoundPrefix(uploads: seq<Upload>, n: nat)
    requires n <= |uploads| && Sound(uploads)
    ensures Sound(uploads[..n])
  {
    hide AcceptableOne;
    TotalSizePrefix(uploads, n);
  }

  type Decoded = seq<(string, seq<Byte>)>

  function Payloads(uploads: seq<Upload>): (decoded: Decoded)
    ensures |decoded| == |uploads|
  {
    seq(|uploads|, i requires 0 <= i < |uploads| => (uploads[i].path, BytesOf(uploads[i])))
  }

  /** The files that an accepted list of uploads denotes. */
  function Files(uploads: seq<Upload>): map<string, seq<Byte>>
    requires DistinctPaths(uploads)
  {
    map i | 0 <= i < |uploads| :: uploads[i].path := BytesOf(uploads[i])
  }

  /** The limits, in numbers: 100 files of at most 1 MiB each and 10 MiB together, under distinct valid
      paths, in base64. */
  lemma AcceptableIff(uploads: seq<Upload>)
    ensures Acceptable(uploads)
            <==> && |uploads| <= 100 && TotalSize(uploads) <= 10 * 1024 * 1024
                 && (forall i :: 0 <= i < |uploads| ==>
                       ValidPath(uploads[i].path) && exists raw :: Decode64(uploads[i].contentBase64) == Some(raw) && |raw| <= 1024 * 1024)
                 && (forall i, j :: 0 <= i < j < |uploads| ==> uploads[i].path != uploads[j].path)
  {
    hide ValidPath, TotalSize, Decode64;
  }

  /** `_decode_assets` accepts exactly the acceptable lists, and returns each path with the bytes that its
      base64 text spells, in order. */
  method DecodeAssets(uploads: seq<Upload>) returns (r: Option<Decoded>)
    ensures r == if Acceptable(uploads) then Some(Payloads(uploads)) else None
    ensures r.Some? ==> |r.value| == |uploads| && forall i :: 0 <= i < |uploads| ==>
              r.value[i].0 == uploads[i].path && Decode64(uploads[i].contentBase64) == Some(r.value[i].1)
  {
    if |uploads| > MAX_ASSETS_PER_PACK {
      return None;
    }
    hide ValidPath, Decode64, TotalSize, Sound, Payloads, HasPath;
    var seen: set<string> := {};
    var decoded: Decoded := [];
    var total := 0;
    NothingIsSound();
    assert uploads[..0] == [];
    for i := 0 to |uploads|
      invariant decoded == Payloads(uploads[..i]) && total == TotalSize(uploads[..i])
      invariant Sound(uploads[..i])
      invariant forall path :: path in seen <==> HasPath(uploads[..i], path)
    {
      var asset := uploads[i];
      ghost var before := uploads[..i];
      assert uploads[..i + 1] == before + [asset];
      SoundStep(before, asset);
      TotalSizeStep(before, asset);
      if Sound(uploads) {
        SoundPrefix(uploads, i + 1);
      }
      if !ValidPath(asset.path) || asset.path in seen {
        return None;
      }
      HasPathStep(before, asset);
      PayloadsStep(before, asset);
      seen := seen + {asset.path};
      match Decode64(asset.contentBase64)
      case None => return None;
      case Some(raw) =>
        if |raw| > MAX_ASSET_BYTES {
          return None;
        }
        total := total + |raw|;
        if total > MAX_PACK_ASSETS_BYTES {
          return None;
        }
        decoded := decoded + [(asset.path, raw)];
    }
    assert uploads[..|uploads|] == uploads;
    r := Some(decoded);
  }

  lemma NothingIsSound()
    ensures Sound([]) && TotalSize([]) == 0 && Payloads([]) == []
    ensures forall path :: !HasPath([], path)
  {
  }

  lemma HasPathStep(uploads: seq<Upload>, upload: Upload)
    ensures forall path :: HasPath(uploads + [upload], path) <==> HasPath(uploads, path) || path == upload.path
  {
    var all := uploads + [upload];
    assert forall i :: 0 <= i < |uploads| ==> all[i] == uploads[i];
    assert all[|uploads|] == upload;
  }

  lemma PayloadsStep(uploads: seq<Upload>, upload: Upload)
    ensures Payloads(uploads + [upload]) == Payloads(uploads) + [(upload.path, BytesOf(upload))]
  {
  }
}
