/** The pure steps of the capture script: prefix normalisation and the user
    check in `config`, the uploaded key name, the backend choice in `upload`,
    and the rule that only a successful capture is uploaded. */
module Snap {
  import opened Wrappers
  import opened Decimal
  import opened Catalog

  /** `s.rstrip(c)`: `s` without its trailing run of `c`. */
  function RStrip(s: string, c: char): (r: string)
    ensures |r| <= |s| && r == s[..|r|]
    ensures forall i :: |r| <= i < |s| ==> s[i] == c
    ensures r == [] || r[|r| - 1] != c
  {
    if s != [] && s[|s| - 1] == c then RStrip(s[..|s| - 1], c) else s
  }

  /** `p[:1] + p[1:].rstrip('/')`: trailing slashes go, but a first character
      is always kept, so `/` stays `/`. */
  function NormalizePrefix(p: string): (r: string)
    ensures |p| > 0 ==> |r| > 0 && r[0] == p[0]
    ensures |r| <= |p| && r == p[..|r|]
    ensures forall i :: |r| <= i < |p| ==> p[i] == '/'
    ensures |r| > 1 ==> r[|r| - 1] != '/'
  {
    if p == [] then []
    else
      var t := RStrip(p[1..], '/');
      assert p == [p[0]] + p[1..];
      [p[0]] + t
  }

  /** Normalising an already normalised prefix changes nothing. */
  lemma NormalizePrefixIdempotent(p: string)
    ensures NormalizePrefix(NormalizePrefix(p)) == NormalizePrefix(p)
  {
    if p != [] {
      var r := NormalizePrefix(p);
      var t := RStrip(p[1..], '/');
      assert r[1..] == t;
      assert RStrip(t, '/') == t;
    }
  }

  /** `len(s.split(c))`: one more piece than there are separators. */
  function SplitPieces(s: string, c: char): (n: nat)
    ensures n >= 1
  {
    if s == [] then 1 else (if s[0] == c then 1 else 0) + SplitPieces(s[1..], c)
  }

  lemma SplitPiecesOne(s: string, c: char)
    ensures SplitPieces(s, c) == 1 <==> c !in s
  {
    if s != [] {
      SplitPiecesOne(s[1..], c);
      assert s == [s[0]] + s[1..];
    }
  }

  /** The mode that selects Swift with Keystone authentication. */
  const SwiftMode: string := "cfk2"

  /** The `cfk2` user check in `config`. */
  function CheckUser(mode: string, user: string): (r: Result<()>)
    ensures r.Failure? <==> mode == SwiftMode && ':' !in user
    ensures r.Failure? ==> r.error == ConfigError("Must have a ':' in user " + user)
  {
    SplitPiecesOne(user, ':');
    if mode == SwiftMode && SplitPieces(user, ':') == 1
    then Failure(ConfigError("Must have a ':' in user " + user))
    else Success(())
  }

  /** The settings of the `[snap]` section that the pure steps use. */
  datatype SnapConfig = SnapConfig(mode: string, host: string, user: string, bucket: string, prefix: string)

  /** The tail of `config` after the keys are read: the user check, then the
      prefix normalisation. */
  function Configure(raw: SnapConfig): (r: Result<SnapConfig>)
    ensures r.Failure? <==> raw.mode == SwiftMode && ':' !in raw.user
    ensures r.Success? ==> r.value == raw.(prefix := NormalizePrefix(raw.prefix))
  {
    match CheckUser(raw.mode, raw.user)
    case Failure(e) => Failure(e)
    case Success(_) => Success(raw.(prefix := NormalizePrefix(raw.prefix)))
  }

  /** The key an upload at Unix time `tag` is stored under, for both backends. */
  function UploadKey(prefix: string, tag: nat): (key: string)
    ensures |key| > |prefix| + 1 && key[..|prefix| + 1] == prefix + "/"
    ensures IsImageName(key[|prefix| + 1..])
    ensures key[|prefix| + 2..] == NatToString(tag)
  {
    prefix + "/" + "i" + NatToString(tag)
  }

  /** Distinct upload times give distinct keys. */
  lemma UploadKeyInjective(prefix: string, t1: nat, t2: nat)
    requires UploadKey(prefix, t1) == UploadKey(prefix, t2)
    ensures t1 == t2
  {
    NatToStringRoundTrip(t1);
    NatToStringRoundTrip(t2);
  }

  /** An uploaded image is catalogued by a pack scan of the same directory:
      listed under the snap prefix plus `/`, it enters the catalog under the
      name `i` followed by the time. */
  lemma UploadIsCatalogued(prefix: string, tag: nat, size: nat, mtime: int)
    ensures var o := StoreObject(UploadKey(prefix, tag), size, mtime);
      && Listed(prefix + "/", [o])
      && BuildCatalog(prefix + "/", [o]) == [KnownKey("i" + NatToString(tag), size, mtime)]
  {
    var key := UploadKey(prefix, tag);
    var o := StoreObject(key, size, mtime);
    assert key[|prefix| + 1..] == "i" + NatToString(tag);
    assert Listed(prefix + "/", [o]);
    BuildCatalogCons(prefix + "/", [o]);
    assert [o][1..] == [];
  }

  datatype Backend = S3 | Swift

  /** The store write one upload performs. S3 uploads declare a JPEG content
      type and a public-read ACL; Swift uploads set neither. */
  datatype Upload = Upload(backend: Backend, bucket: string, key: string,
                           contentType: Option<string>, publicRead: bool)

  /** The dispatch in `upload`. */
  function SelectBackend(mode: string): (b: Backend)
    ensures b == Swift <==> mode == SwiftMode
  {
    if mode == SwiftMode then Swift else S3
  }

  /** `_upload_s3` or `_upload_swift`, as the mode selects. */
  function UploadFor(cfg: SnapConfig, tag: nat): (u: Upload)
    ensures u.backend == SelectBackend(cfg.mode)
    ensures u.bucket == cfg.bucket && u.key == UploadKey(cfg.prefix, tag)
    ensures u.publicRead <==> u.backend == S3
  {
    match SelectBackend(cfg.mode)
    case S3 => Upload(S3, cfg.bucket, UploadKey(cfg.prefix, tag), Some("image/jpeg"), true)
    case Swift => Upload(Swift, cfg.bucket, UploadKey(cfg.prefix, tag), None, false)
  }

  /** One pass of the capture loop after `fetch` returned `rc`: an upload
      happens exactly when the capture command exited with status 0. */
  function SnapCycle(cfg: SnapConfig, rc: int, tag: nat): (r: seq<Upload>)
    ensures |r| <= 1
    ensures r != [] <==> rc == 0
    ensures r != [] ==> r[0].key == UploadKey(cfg.prefix, tag)
  {
    if rc == 0 then [UploadFor(cfg, tag)] else []
  }
}
