/** The manifest of an archive: what the backup writes as JSON and what the
    verification accepts when it reads JSON of any shape. */
module Manifest {
  import opened Wrappers
  import opened Checksums

  const FORMAT_VERSION := 1
  const DATABASE_STEM := "venue-inventory"
  const DATABASE_ARCHIVE_PATH := "database/" + DATABASE_STEM + ".sqlite3"
  const MANIFEST_PATH := "manifest.json"
  const CHECKSUMS_PATH := "checksums.sha256"
  const IMAGE_FILENAME_SUFFIX := ".webp"

  /** A value of json.loads. */
  datatype Json =
    | Null
    | Bool(b: bool)
    | Number(n: int)
    | Real(r: real)
    | Text(s: string)
    | Array(items: seq<Json>)
    | Object(fields: map<string, Json>)

  datatype ImageEntry = ImageEntry(filename: string, path: string, sha256: string, bytes: nat)

  datatype BackupManifest = BackupManifest(
    createdAt: string, gitSha: string, schemaRevision: string,
    databaseSha256: string, databaseBytes: nat, images: seq<ImageEntry>)

  /** The state of a running hash. */
  type Hash(!new)

  /** What the program gets from the libraries: the running hash, the readers of
      a SQLite file, the JSON codec, date parsing, `int(stem, 16)` and
      `str.lower`. */
  datatype World = World(
    start: Hash,
    update: (Hash, Bytes) -> Hash,
    hexdigest: Hash -> string,
    valid: Bytes -> bool,
    revision: Bytes -> Option<string>,
    imageNames: Bytes -> Option<seq<string>>,
    loads: Bytes -> Option<Json>,
    dumps: Json -> Bytes,
    isTimestamp: string -> bool,
    isBase16: string -> bool,
    lower: string -> string)

  /** The digest of a whole byte string. */
  function Sha256(w: World, data: Bytes): string {
    w.hexdigest(w.update(w.start, data))
  }

  /** Code-point order, which is also SQLite's order of text. */
  predicate Less(a: string, b: string) {
    if b == "" then false
    else if a == "" then true
    else if a[0] != b[0] then a[0] < b[0]
    else Less(a[1..], b[1..])
  }

  /** A string is before another exactly if it is a proper prefix of it, or
      smaller at the first place where they differ. */
  lemma {:induction false} LessMeans(a: string, b: string)
    ensures Less(a, b) <==> exists k: nat ::
              k <= |a| && k < |b| && a[..k] == b[..k] && (k == |a| || a[k] < b[k])
  {
    if a == "" {
      assert b != "" ==> a[..0] == b[..0];
    } else if b != "" && a[0] == b[0] {
      LessMeans(a[1..], b[1..]);
      if Less(a[1..], b[1..]) {
        var k: nat :| && k <= |a| - 1 && k < |b| - 1 && a[1..][..k] == b[1..][..k]
                      && (k == |a| - 1 || a[1..][k] < b[1..][k]);
        assert a[..k + 1] == [a[0]] + a[1..][..k] && b[..k + 1] == [b[0]] + b[1..][..k];
      }
      forall k: nat | k <= |a| && k < |b| && a[..k] == b[..k] && (k == |a| || a[k] < b[k])
        ensures Less(a[1..], b[1..])
      {
        assert k > 0;
        assert a[1..][..k - 1] == a[..k][1..] && b[1..][..k - 1] == b[..k][1..];
        assert k - 1 == |a[1..]| || a[1..][k - 1] < b[1..][k - 1];
      }
    } else if b != "" {
      assert a[..0] == b[..0];
      forall k: nat | 0 < k <= |a| && k < |b|
        ensures a[..k] != b[..k]
      {
        assert a[..k][0] == a[0] && b[..k][0] == b[0];
      }
    }
  }

  lemma {:induction false} NotLessThanItself(a: string)
    ensures !Less(a, a)
  {
    if a != "" { NotLessThanItself(a[1..]); }
  }

  ghost predicate Ascending(names: seq<string>) {
    forall j, k :: 0 <= j < k < |names| ==> Less(names[j], names[k])
  }

  // -------------------------------------------------------------- image names

  /** The suffix test comes from os.path.splitext; a stem with a separator or
      only dots fails the conversion. */
  predicate IsGeneratedImageFilename(w: World, filename: string) {
    && |filename| == 32 + |IMAGE_FILENAME_SUFFIX|
    && filename[32..] == IMAGE_FILENAME_SUFFIX
    && w.isBase16(filename[..32])
    && w.lower(filename[..32]) == filename[..32]
  }

  /** The names `normalize_upload` makes. */
  predicate IsUuidFilename(filename: string) {
    |filename| == 32 + |IMAGE_FILENAME_SUFFIX| && filename[32..] == IMAGE_FILENAME_SUFFIX && AllHex(filename[..32])
  }

  function ImagePath(filename: string): string {
    "images/" + filename
  }

  /** ASCII without spaces or line breaks. */
  predicate IsPlain(s: string) {
    forall k :: 0 <= k < |s| ==> s[k] != ' ' && !IsBreak(s[k]) && s[k] as int < 128
  }

  lemma {:induction false} NoGapWhenPlain(s: string)
    requires IsPlain(s)
    ensures FirstGap(s) == |s|
  {
    if |s| >= 2 { NoGapWhenPlain(s[1..]); }
  }

  lemma HexIsPlain(s: string)
    requires AllHex(s)
    ensures IsPlain(s)
  {
    assert forall k :: 0 <= k < |s| ==> IsHex(s[k]);
  }

  lemma UuidPathIsPrintable(filename: string)
    requires IsUuidFilename(filename)
    ensures Printable(ImagePath(filename))
  {
    var path := ImagePath(filename);
    assert path == "images/" + filename[..32] + IMAGE_FILENAME_SUFFIX;
    HexIsPlain(filename[..32]);
    assert IsPlain("images/") && IsPlain(IMAGE_FILENAME_SUFFIX);
    NoGapWhenPlain(path);
  }

  lemma PlainConcat(s: string, t: string)
    requires IsPlain(s) && IsPlain(t)
    ensures IsPlain(s + t)
  {
  }

  lemma PlainStem()
    ensures IsPlain(DATABASE_STEM)
  {
  }

  lemma PlainEnds()
    ensures IsPlain("database/") && IsPlain(".sqlite3")
  {
  }

  lemma DatabasePathIsPrintable()
    ensures Printable(DATABASE_ARCHIVE_PATH)
  {
    PlainIsPrintable(DATABASE_ARCHIVE_PATH) by {
      hide IsPlain;
      PlainStem();
      PlainEnds();
      PlainConcat("database/", DATABASE_STEM);
      PlainConcat("database/" + DATABASE_STEM, ".sqlite3");
    }
  }

  lemma PlainIsPrintable(s: string)
    requires IsPlain(s)
    ensures Printable(s)
  {
    NoGapWhenPlain(s);
  }

  // ------------------------------------------------------------------ printing

  function ImageJson(e: ImageEntry): Json {
    Object(map["filename" := Text(e.filename), "path" := Text(e.path),
               "sha256" := Text(e.sha256), "bytes" := Number(e.bytes)])
  }

  function ManifestJson(m: BackupManifest): Json {
    Object(map[
      "format_version" := Number(FORMAT_VERSION),
      "created_at" := Text(m.createdAt),
      "git_sha" := Text(m.gitSha),
      "schema_revision" := Text(m.schemaRevision),
      "database" := Object(map["path" := Text(DATABASE_ARCHIVE_PATH),
                               "sha256" := Text(m.databaseSha256),
                               "bytes" := Number(m.databaseBytes)]),
      "images" := Array(seq(|m.images|, k requires 0 <= k < |m.images| => ImageJson(m.images[k])))])
  }

  /** The lines of the checksum listing, in order. */
  function Lines(m: BackupManifest): seq<Entry> {
    [Entry(m.databaseSha256, DATABASE_ARCHIVE_PATH)] +
    seq(|m.images|, k requires 0 <= k < |m.images| => Entry(m.images[k].sha256, m.images[k].path))
  }

  // ------------------------------------------------------------------- parsing

  function Field(fields: map<string, Json>, key: string): Json {
    if key in fields then fields[key] else Null
  }

  /** Python's `value == 1`, which `true` and `1.0` meet too. */
  predicate EqualsOne(j: Json) {
    j == Number(1) || j == Bool(true) || j == Real(1.0)
  }

  predicate IsGitSha(s: string) {
    7 <= |s| <= 64 && AllHex(s)
  }

  predicate DescribesImage(w: World, j: Json, e: ImageEntry) {
    && j.Object?
    && Field(j.fields, "filename") == Text(e.filename)
    && Field(j.fields, "path") == Text(e.path)
    && Field(j.fields, "sha256") == Text(e.sha256)
    && Field(j.fields, "bytes") == Number(e.bytes)
    && IsGeneratedImageFilename(w, e.filename)
    && e.path == ImagePath(e.filename)
    && IsSha256(e.sha256)
  }

  ghost predicate DescribesImages(w: World, j: Json, images: seq<ImageEntry>) {
    && j.Array? && |j.items| == |images|
    && forall k :: 0 <= k < |images| ==> DescribesImage(w, j.items[k], images[k])
  }

  function Filenames(images: seq<ImageEntry>): (names: seq<string>)
    ensures |names| == |images| && forall k :: 0 <= k < |images| ==> names[k] == images[k].filename
  {
    seq(|images|, k requires 0 <= k < |images| => images[k].filename)
  }

  /** A JSON value of the supported format that says exactly `m`. */
  ghost predicate Describes(w: World, j: Json, m: BackupManifest) {
    && j.Object? && EqualsOne(Field(j.fields, "format_version"))
    && Field(j.fields, "created_at") == Text(m.createdAt) && m.createdAt != "" && w.isTimestamp(m.createdAt)
    && Field(j.fields, "git_sha") == Text(m.gitSha) && IsGitSha(m.gitSha)
    && Field(j.fields, "schema_revision") == Text(m.schemaRevision) && m.schemaRevision != ""
    && var database := Field(j.fields, "database");
    && database.Object?
    && Field(database.fields, "path") == Text(DATABASE_ARCHIVE_PATH)
    && Field(database.fields, "sha256") == Text(m.databaseSha256) && IsSha256(m.databaseSha256)
    && Field(database.fields, "bytes") == Number(m.databaseBytes)
    && DescribesImages(w, Field(j.fields, "images"), m.images)
    && Ascending(Filenames(m.images))
  }

  datatype ManifestError = Unsupported | BadField | BadDatabase | BadImage | Unordered | Duplicate

  method ParseImage(w: World, j: Json) returns (r: Result<ImageEntry, ManifestError>)
    ensures r.Ok? ==> DescribesImage(w, j, r.value)
    ensures r.Err? ==> forall e :: !DescribesImage(w, j, e)
  {
    if !j.Object? { return Err(BadImage); }
    var filename, path := Field(j.fields, "filename"), Field(j.fields, "path");
    if !filename.Text? || filename.s == "" || !path.Text? || path.s == "" { return Err(BadField); }
    if !IsGeneratedImageFilename(w, filename.s) || path.s != ImagePath(filename.s) { return Err(BadImage); }
    var sha, bytes := Field(j.fields, "sha256"), Field(j.fields, "bytes");
    if !sha.Text? || !IsSha256(sha.s) { return Err(BadField); }
    if !bytes.Number? || bytes.n < 0 { return Err(BadField); }
    return Ok(ImageEntry(filename.s, path.s, sha.s, bytes.n));
  }

  /** The list is left as it is by a stable sort. */
  predicate InOrder(images: seq<ImageEntry>) {
    forall j, k :: 0 <= j < k < |images| ==>
      images[j].filename == images[k].filename || Less(images[j].filename, images[k].filename)
  }

  ghost predicate Distinct(names: seq<string>) {
    forall j, k :: 0 <= j < k < |names| ==> names[j] != names[k]
  }

  lemma DistinctNext(init: seq<string>, last: string)
    ensures Distinct(init + [last]) <==> Distinct(init) && last !in init
    ensures (set n | n in init + [last]) == (set n | n in init) + {last}
  {
    var names := init + [last];
    assert names[|init|] == last;
    assert forall k :: 0 <= k < |init| ==> names[k] == init[k];
  }

  /** A list has as many members as positions just when none repeats. */
  lemma {:induction false} AllDifferent(names: seq<string>)
    ensures |set n | n in names| == |names| <==> Distinct(names)
    ensures |set n | n in names| <= |names|
  {
    if names != [] {
      var init, last := names[..|names| - 1], names[|names| - 1];
      assert names == init + [last];
      DistinctNext(init, last);
      hide Distinct;
      AllDifferent(init);
      var fewer := set n | n in init;
      assert last in init ==> fewer + {last} == fewer;
    }
  }

  lemma OrderedAndDifferent(images: seq<ImageEntry>)
    ensures InOrder(images) && |set n | n in Filenames(images)| == |images| <==> Ascending(Filenames(images))
  {
    var names := Filenames(images);
    AllDifferent(names);
    forall j, k | 0 <= j < k < |names| ensures Less(names[j], names[k]) ==> names[j] != names[k] {
      NotLessThanItself(names[j]);
    }
  }

  method ParseImages(w: World, j: Json) returns (r: Result<seq<ImageEntry>, ManifestError>)
    ensures r.Ok? ==> DescribesImages(w, j, r.value) && Ascending(Filenames(r.value))
    ensures r.Err? ==> forall images :: !(DescribesImages(w, j, images) && Ascending(Filenames(images)))
  {
    hide DescribesImage;
    if !j.Array? { return Err(BadImage); }
    var entries: seq<ImageEntry> := [];
    for k := 0 to |j.items|
      invariant |entries| == k && forall n :: 0 <= n < k ==> DescribesImage(w, j.items[n], entries[n])
    {
      var entry := ParseImage(w, j.items[k]);
      if entry.Err? {
        assert forall e :: !DescribesImage(w, j.items[k], e);
        return Err(entry.error);
      }
      entries := entries + [entry.value];
    }
    OrderedAndDifferent(entries);
    forall images | DescribesImages(w, j, images)
      ensures images == entries
    {
      forall n | 0 <= n < |images| ensures images[n] == entries[n] {
        OneDescription(w, j.items[n], images[n], entries[n]);
      }
    }
    if !InOrder(entries) { return Err(Unordered); }
    if |set n | n in Filenames(entries)| != |entries| { return Err(Duplicate); }
    return Ok(entries);
  }

  lemma OneDescription(w: World, j: Json, e: ImageEntry, f: ImageEntry)
    requires DescribesImage(w, j, e) && DescribesImage(w, j, f)
    ensures e == f
  {
  }

  /** Accepts exactly the values that describe a manifest, and returns it. */
  method ParseManifest(w: World, j: Json) returns (r: Result<BackupManifest, ManifestError>)
    ensures r.Ok? ==> Describes(w, j, r.value)
    ensures r.Err? ==> forall m :: !Describes(w, j, m)
  {
    hide DescribesImages, Ascending;
    if !j.Object? || !EqualsOne(Field(j.fields, "format_version")) { return Err(Unsupported); }
    var created, git, revision :=
      Field(j.fields, "created_at"), Field(j.fields, "git_sha"), Field(j.fields, "schema_revision");
    if !created.Text? || created.s == "" || !w.isTimestamp(created.s) { return Err(BadField); }
    if !git.Text? || git.s == "" || !IsGitSha(git.s) { return Err(BadField); }
    if !revision.Text? || revision.s == "" { return Err(BadField); }
    var database := Field(j.fields, "database");
    if !database.Object? || Field(database.fields, "path") != Text(DATABASE_ARCHIVE_PATH) { return Err(BadDatabase); }
    var sha, bytes := Field(database.fields, "sha256"), Field(database.fields, "bytes");
    if !sha.Text? || !IsSha256(sha.s) { return Err(BadField); }
    if !bytes.Number? || bytes.n < 0 { return Err(BadField); }
    var images := ParseImages(w, Field(j.fields, "images"));
    if images.Err? { return Err(images.error); }
    return Ok(BackupManifest(created.s, git.s, revision.s, sha.s, bytes.n, images.value));
  }

  lemma OneManifest(w: World, j: Json, m: BackupManifest, m': BackupManifest)
    requires Describes(w, j, m) && Describes(w, j, m')
    ensures m == m'
  {
    hide DescribesImage, Ascending;
    forall n | 0 <= n < |m.images| ensures m.images[n] == m'.images[n] {
      OneDescription(w, Field(j.fields, "images").items[n], m.images[n], m'.images[n]);
    }
    assert m.images == m'.images;
  }

  // ----------------------------------------------------------------- round trip

  /** The manifests the verification can accept. */
  ghost predicate WellFormed(w: World, m: BackupManifest) {
    && m.createdAt != "" && w.isTimestamp(m.createdAt)
    && IsGitSha(m.gitSha) && m.schemaRevision != "" && IsSha256(m.databaseSha256)
    && Ascending(Filenames(m.images))
    && forall k :: 0 <= k < |m.images| ==>
         var e := m.images[k];
         IsGeneratedImageFilename(w, e.filename) && e.path == ImagePath(e.filename) && IsSha256(e.sha256)
  }

  /** A printed manifest is read back, as itself, exactly when it is well formed. */
  lemma PrintedManifest(w: World, m: BackupManifest)
    ensures Describes(w, ManifestJson(m), m) <==> WellFormed(w, m)
    ensures forall m' :: Describes(w, ManifestJson(m), m') ==> m' == m
  {
    hide Ascending, IsGeneratedImageFilename, IsSha256, IsGitSha;
    var images := seq(|m.images|, k requires 0 <= k < |m.images| => ImageJson(m.images[k]));
    assert Field(ManifestJson(m).fields, "images") == Array(images);
    forall k | 0 <= k < |m.images|
      ensures forall e :: DescribesImage(w, images[k], e) <==>
                e == m.images[k] && IsGeneratedImageFilename(w, e.filename)
                    && e.path == ImagePath(e.filename) && IsSha256(e.sha256)
    {
      PrintedImage(w, m.images[k]);
    }
    forall m' | Describes(w, ManifestJson(m), m') ensures m' == m {
      assert m'.images == m.images;
    }
  }

  lemma PrintedImage(w: World, f: ImageEntry)
    ensures forall e :: DescribesImage(w, ImageJson(f), e) <==>
              e == f && IsGeneratedImageFilename(w, e.filename) && e.path == ImagePath(e.filename) && IsSha256(e.sha256)
  {
  }
}
