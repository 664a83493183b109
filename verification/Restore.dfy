/** restore_backup up to the renames, then the renames: which archives restore,
    what they restore to, and the way there from create_backup. */
module Restore {
  import opened Wrappers
  import opened Checksums
  import opened Manifest
  import opened Verify
  import opened Archive
  import D = DataDirectory

  /** The staging directory by relative path, and the pair taken from it. */
  type Stage = map<string, Bytes>

  datatype Staged = Staged(database: Bytes, images: map<string, Bytes>)

  const IMAGES: string := "images/"

  /** The files below `images/`. */
  function ImagesOf(stage: Stage): map<string, Bytes> {
    map f | f in (set p | p in stage && IMAGES <= p :: p[7..]) && ImagePath(f) in stage :: stage[ImagePath(f)]
  }

  ghost predicate Extracted(members: seq<Member>, stage: Stage) {
    && (forall p :: p in stage <==> p in Names(members) && IsData(p))
    && (forall p :: p in stage ==> DataOf(members, p) == Some(stage[p]))
  }

  /** Writes each data member to a file that must not exist yet. */
  method ExtractVerifiedState(members: seq<Member>, m: BackupManifest) returns (stage: Option<Stage>)
    ensures stage.Some? <==> AllSafe(members) && Names(members) == ArchivePaths(m)
    ensures stage.Some? ==> Extracted(members, stage.value)
  {
    hide SafeName, IsData, ArchivePaths, DataOf;
    var safe := ValidateTarMembers(members);
    if !safe || Names(members) != ArchivePaths(m) { return None; }
    var files: Stage := map[];
    for k := 0 to |members|
      invariant forall p :: p in files <==> exists j :: 0 <= j < k && members[j].name == p && IsData(p)
      invariant forall p :: p in files ==> DataOf(members, p) == Some(files[p])
    {
      var member := members[k];
      if IsData(member.name) {
        if member.name in files { return None; }
        DataAt(members, k);
        files := files[member.name := member.data];
      }
    }
    return Some(files);
  }

  ghost predicate SameNames(names: seq<string>, images: seq<ImageEntry>) {
    forall n :: n in names <==> n in Filenames(images)
  }

  /** The database references exactly the images of the manifest. */
  ghost predicate ReferencesMatch(w: World, database: Bytes, m: BackupManifest) {
    exists names :: ReferencesAre(w, database, names) && SameNames(names, m.images)
  }

  ghost predicate StagedImage(w: World, stage: Stage, e: ImageEntry) {
    e.path in stage && |stage[e.path]| == e.bytes && Sha256(w, stage[e.path]) == e.sha256
  }

  ghost predicate StagedRight(w: World, stage: Stage, m: BackupManifest) {
    && DATABASE_ARCHIVE_PATH in stage
    && var database := stage[DATABASE_ARCHIVE_PATH];
    && Sha256(w, database) == m.databaseSha256
    && w.valid(database) && w.revision(database) == Some(m.schemaRevision) && m.schemaRevision != ""
    && (forall k :: 0 <= k < |m.images| ==> StagedImage(w, stage, m.images[k]))
    && ReferencesMatch(w, database, m)
  }

  method ValidateStagedRestore(w: World, stage: Stage, m: BackupManifest) returns (ok: bool)
    requires Hashes(w)
    ensures ok <==> StagedRight(w, stage, m)
  {
    hide Hashes, Sha256, ReferencesAre, SameNames;
    if DATABASE_ARCHIVE_PATH !in stage { return false; }
    var database := stage[DATABASE_ARCHIVE_PATH];
    var digest, size, copy := HashMember(w, database);
    if digest != m.databaseSha256 || !w.valid(database) { return false; }
    if w.revision(database) != Some(m.schemaRevision) || m.schemaRevision == "" { return false; }
    for k := 0 to |m.images|
      invariant forall j :: 0 <= j < k ==> StagedImage(w, stage, m.images[j])
    {
      var e := m.images[k];
      if e.path !in stage || |stage[e.path]| != e.bytes { return false; }
      digest, size, copy := HashMember(w, stage[e.path]);
      if digest != e.sha256 { return false; }
    }
    var names := ReferencedImageFilenames(w, database);
    if names.None? { return false; }
    forall other | ReferencesAre(w, database, other) ensures other == names.value {
      OneListOfReferences(w, database, other, names.value);
    }
    ok := (set n | n in names.value) == (set n | n in Filenames(m.images));
    NameSets(names.value, m.images);
  }

  lemma OneListOfReferences(w: World, database: Bytes, a: seq<string>, b: seq<string>)
    requires ReferencesAre(w, database, a) && ReferencesAre(w, database, b)
    ensures a == b
  {
  }

  lemma NameSets(names: seq<string>, images: seq<ImageEntry>)
    ensures (set n | n in names) == (set n | n in Filenames(images)) <==> SameNames(names, images)
  {
    var a, b := set n | n in names, set n | n in Filenames(images);
    assert forall n :: (n in names <==> n in a) && (n in Filenames(images) <==> n in b);
  }

  /** An accepted archive's files match its manifest, so only the references can
      still be wrong. */
  lemma AcceptedIsStagedRight(w: World, members: seq<Member>, m: BackupManifest, stage: Stage)
    requires Acceptable(w, members, m) && Extracted(members, stage)
    ensures DATABASE_ARCHIVE_PATH in stage
    ensures StagedRight(w, stage, m) <==> ReferencesMatch(w, stage[DATABASE_ARCHIVE_PATH], m)
  {
    hide AllSafe, Describes, HasListing, ReferencesMatch, Sha256, DataOf;
    DatabaseIsData();
    assert DATABASE_ARCHIVE_PATH in ArchivePaths(m);
    var json := w.loads(DataOf(members, MANIFEST_PATH).value).value;
    assert m.schemaRevision != "" by { DescribedRevision(w, json, m); }
    LinesAreDistinct(w, json, m);
    var at := DatabaseIndex(members, m);
    assert Matches(w, m, members[at]);
    assert AllNamesDiffer(members) by { SafeNamesDiffer(members); }
    DataAt(members, at);
    forall k | 0 <= k < |m.images| ensures StagedImage(w, stage, m.images[k]) {
      assert m.images[k].path in Names(members);
      var n :| 0 <= n < |members| && members[n].name == m.images[k].path;
      DataAt(members, n);
      assert Matches(w, m, members[n]);
      var j :| 0 <= j < |m.images| && m.images[j].path == members[n].name
               && Sha256(w, members[n].data) == m.images[j].sha256 && |members[n].data| == m.images[j].bytes;
      OnlyImage(m, k, j);
    }
  }

  ghost predicate AllNamesDiffer(members: seq<Member>) {
    forall i, j :: 0 <= i < j < |members| ==> members[i].name != members[j].name
  }

  lemma SafeNamesDiffer(members: seq<Member>)
    requires AllSafe(members)
    ensures AllNamesDiffer(members)
  {
  }

  lemma DescribedRevision(w: World, j: Json, m: BackupManifest)
    requires Describes(w, j, m)
    ensures m.schemaRevision != ""
  {
  }

  // --------------------------------------------------------------- what restores

  /** What restoring an archive puts in place. */
  ghost predicate Contents(members: seq<Member>, m: BackupManifest, staged: Staged) {
    && DataOf(members, DATABASE_ARCHIVE_PATH) == Some(staged.database)
    && (forall n :: n in staged.images <==> n in Filenames(m.images))
    && forall k :: 0 <= k < |m.images| ==>
            DataOf(members, m.images[k].path) == Some(staged.images[m.images[k].filename])
  }

  /** An archive restores exactly if it is acceptable and its database
      references exactly its images; acceptance alone does not say so. */
  method StageRestore(w: World, members: seq<Member>)
    returns (r: Result<Staged, Refusal>, ghost m: Option<BackupManifest>)
    requires Hashes(w)
    ensures r.Ok? ==> m.Some? && Acceptable(w, members, m.value) && ReferencesMatch(w, r.value.database, m.value)
                      && Contents(members, m.value, r.value)
    ensures r.Err? ==> forall m', database ::
              Acceptable(w, members, m') && DataOf(members, DATABASE_ARCHIVE_PATH) == Some(database) ==>
                !ReferencesMatch(w, database, m')
  {
    hide Acceptable, Hashes, ReferencesMatch, Extracted, StagedRight, DataOf, AllSafe, Names, ArchivePaths;
    var verified := VerifyBackup(w, members);
    if verified.Err? { return Err(verified.error), None; }
    var manifest := verified.value;
    OneAcceptableManifest(w, members, manifest);
    var stage := ExtractVerifiedState(members, manifest);
    AcceptableNames(w, members, manifest);
    AcceptedIsStagedRight(w, members, manifest, stage.value);
    ExtractedDatabase(members, stage.value);
    var ok := ValidateStagedRestore(w, stage.value, manifest);
    if !ok { return Err(BadImages), None; }
    var staged := Staged(stage.value[DATABASE_ARCHIVE_PATH], ImagesOf(stage.value));
    ExtractedContents(w, members, manifest, stage.value);
    return Ok(staged), Some(manifest);
  }

  lemma OneAcceptableManifest(w: World, members: seq<Member>, m: BackupManifest)
    requires Acceptable(w, members, m)
    ensures forall m' :: Acceptable(w, members, m') ==> m' == m
  {
    hide HasManifest, AllSafe, HasListing, Matches;
    forall m' | Acceptable(w, members, m') ensures m' == m {
      AcceptedManifestIsUnique(w, members, m, m');
    }
  }

  lemma AcceptableNames(w: World, members: seq<Member>, m: BackupManifest)
    requires Acceptable(w, members, m)
    ensures AllSafe(members) && Names(members) == ArchivePaths(m)
  {
  }

  lemma ExtractedDatabase(members: seq<Member>, stage: Stage)
    requires Extracted(members, stage) && DATABASE_ARCHIVE_PATH in stage
    ensures DataOf(members, DATABASE_ARCHIVE_PATH) == Some(stage[DATABASE_ARCHIVE_PATH])
  {
  }

  lemma ExtractedContents(w: World, members: seq<Member>, m: BackupManifest, stage: Stage)
    requires Acceptable(w, members, m) && Extracted(members, stage) && DATABASE_ARCHIVE_PATH in stage
    ensures Contents(members, m, Staged(stage[DATABASE_ARCHIVE_PATH], ImagesOf(stage)))
  {
    hide AllSafe, Describes, HasListing, HasDatabase, Matches, DataOf;
    var json := w.loads(DataOf(members, MANIFEST_PATH).value).value;
    LinesAreDistinct(w, json, m);
    forall k | 0 <= k < |m.images|
      ensures m.images[k].path == ImagePath(m.images[k].filename) && m.images[k].path in stage
    {
      DescribedPath(w, json, m, k);
      assert m.images[k].path in ArchivePaths(m);
    }
    ImagesOfStage(stage, m);
  }

  lemma DescribedPath(w: World, j: Json, m: BackupManifest, k: nat)
    requires Describes(w, j, m) && k < |m.images|
    ensures m.images[k].path == ImagePath(m.images[k].filename)
  {
    assert DescribesImage(w, Field(j.fields, "images").items[k], m.images[k]);
  }

  lemma ImagesOfStage(stage: Stage, m: BackupManifest)
    requires forall k :: 0 <= k < |m.images| ==>
               m.images[k].path == ImagePath(m.images[k].filename) && m.images[k].path in stage
    requires forall p :: p in stage ==> p in ArchivePaths(m) && IsData(p)
    ensures forall n :: n in ImagesOf(stage) <==> n in Filenames(m.images)
    ensures forall k :: 0 <= k < |m.images| ==> ImagesOf(stage)[m.images[k].filename] == stage[m.images[k].path]
  {
    hide ImagesOf, ArchivePaths, IsData;
    forall n ensures n in ImagesOf(stage) <==> n in Filenames(m.images) {
      ImagesOfAt(stage, n);
      PathOfImage(stage, m, n);
    }
    forall k | 0 <= k < |m.images| ensures ImagesOf(stage)[m.images[k].filename] == stage[m.images[k].path] {
      ImagesOfAt(stage, m.images[k].filename);
    }
  }

  lemma ImagesOfAt(stage: Stage, n: string)
    ensures n in ImagesOf(stage) <==> ImagePath(n) in stage
    ensures n in ImagesOf(stage) ==> ImagesOf(stage)[n] == stage[ImagePath(n)]
  {
    var p := ImagePath(n);
    assert IMAGES <= p && p[7..] == n;
  }

  lemma PathOfImage(stage: Stage, m: BackupManifest, n: string)
    requires forall k :: 0 <= k < |m.images| ==>
               m.images[k].path == ImagePath(m.images[k].filename) && m.images[k].path in stage
    requires forall p :: p in stage ==> p in ArchivePaths(m) && IsData(p)
    ensures ImagePath(n) in stage <==> n in Filenames(m.images)
  {
    var p := ImagePath(n);
    if p in stage {
      assert p[0] == 'i' && DATABASE_ARCHIVE_PATH[0] == 'd';
      var k :| 0 <= k < |m.images| && m.images[k].path == p;
      assert ImagePath(m.images[k].filename)[7..] == m.images[k].filename && p[7..] == n;
      assert Filenames(m.images)[k] == n;
    }
  }

  // ------------------------------------------------------------------ round trip

  /** The files of a data directory that the database references. */
  function Referenced(names: seq<string>, disk: Disk): map<string, Bytes> {
    map n | n in names && n in disk :: disk[n]
  }

  /** A creation time as `isoformat` prints it. */
  predicate Stamp(w: World, createdAt: string) {
    createdAt != "" && w.isTimestamp(createdAt)
  }

  lemma CollectedIsConsistent(
    w: World, database: Bytes, disk: Disk, createdAt: string, gitSha: string, m: BackupManifest, copies: seq<Bytes>)
    requires Lawful(w) && Collected(w, database, disk, createdAt, gitSha, m, copies) && Stamp(w, createdAt)
    ensures Consistent(w, m, database, copies)
  {
    CollectedIsWellFormed(w, database, disk, createdAt, gitSha, m, copies);
    hide Lawful, WellFormed, Sha256, IsGeneratedImageFilename, Distinct;
  }

  lemma CollectedContents(
    w: World, database: Bytes, disk: Disk, createdAt: string, gitSha: string, m: BackupManifest, copies: seq<Bytes>)
    requires WellFormed(w, m) && Collected(w, database, disk, createdAt, gitSha, m, copies)
    ensures ReferencesMatch(w, database, m)
    ensures Contents(MembersOf(w, m, database, copies), m, Staged(database, Referenced(Filenames(m.images), disk)))
  {
    hide WellFormed, MembersOf, Sha256, IsGeneratedImageFilename, Distinct, Referenced, Contents;
    assert SameNames(Filenames(m.images), m.images);
    WrittenContents(w, database, disk, m, copies);
  }

  lemma WrittenContents(w: World, database: Bytes, disk: Disk, m: BackupManifest, copies: seq<Bytes>)
    requires WellFormed(w, m) && |copies| == |m.images|
    requires forall k :: 0 <= k < |m.images| ==> m.images[k].filename in disk && copies[k] == disk[m.images[k].filename]
    ensures Contents(MembersOf(w, m, database, copies), m, Staged(database, Referenced(Filenames(m.images), disk)))
  {
    hide WellFormed, MembersOf, DataOf, Referenced, ManifestJson, Lines, Print, Names, ArchivePaths;
    DataOfMembers(w, m, database, copies);
    ReferencedImages(m.images, disk);
  }

  lemma ReferencedImages(images: seq<ImageEntry>, disk: Disk)
    requires forall k :: 0 <= k < |images| ==> images[k].filename in disk
    ensures forall n :: n in Referenced(Filenames(images), disk) <==> n in Filenames(images)
    ensures forall k :: 0 <= k < |images| ==>
              && images[k].filename in Referenced(Filenames(images), disk)
              && Referenced(Filenames(images), disk)[images[k].filename] == disk[images[k].filename]
  {
    forall k | 0 <= k < |images| ensures images[k].filename in Filenames(images) {
      assert Filenames(images)[k] == images[k].filename;
    }
  }

  lemma OneContents(members: seq<Member>, m: BackupManifest, staged: Staged, staged': Staged)
    requires Contents(members, m, staged) && Contents(members, m, staged')
    ensures staged == staged'
  {
    forall n | n in staged.images ensures staged.images[n] == staged'.images[n] {
      var k :| 0 <= k < |m.images| && Filenames(m.images)[k] == n;
    }
    assert staged.images == staged'.images;
  }

  /** For every data directory that can be backed up: the archive is accepted,
      with its own manifest, exactly if every name is carried; it holds the
      snapshot's bytes and exactly the referenced files, and its references
      match. */
  lemma RoundTrip(
    w: World, database: Bytes, disk: Disk, createdAt: string, gitSha: string, m: BackupManifest, copies: seq<Bytes>)
    requires Lawful(w) && Collected(w, database, disk, createdAt, gitSha, m, copies) && Stamp(w, createdAt)
    ensures var members := MembersOf(w, m, database, copies);
            && (Acceptable(w, members, m) <==> AllCarried(Filenames(m.images)))
            && (forall m' :: Acceptable(w, members, m') ==> m' == m)
            && ReferencesMatch(w, database, m)
            && forall staged :: Contents(members, m, staged) <==>
                 staged == Staged(database, Referenced(Filenames(m.images), disk))
  {
    CollectedIsConsistent(w, database, disk, createdAt, gitSha, m, copies);
    hide Lawful, Acceptable, Contents, MembersOf, ReferencesMatch, Stamp, WellFormed, Collected, AllCarried;
    WrittenArchiveIsAccepted(w, m, database, copies);
    CollectedContents(w, database, disk, createdAt, gitSha, m, copies);
    var members, expected := MembersOf(w, m, database, copies), Staged(database, Referenced(Filenames(m.images), disk));
    forall staged | Contents(members, m, staged) ensures staged == expected {
      OneContents(members, m, staged, expected);
    }
  }

  /** A data directory that can be backed up, all of whose names are carried. */
  ghost predicate Storable(w: World, database: Bytes, disk: Disk, gitSha: string) {
    && Backupable(w, database, disk, gitSha)
    && w.imageNames(database).Some? && AllCarried(w.imageNames(database).value)
  }

  lemma CollectedNames(
    w: World, database: Bytes, disk: Disk, createdAt: string, gitSha: string, m: BackupManifest, copies: seq<Bytes>)
    requires Collected(w, database, disk, createdAt, gitSha, m, copies)
    ensures w.imageNames(database) == Some(Filenames(m.images))
  {
  }

  /** Builds the archive and verifies it: with lawful libraries a backup succeeds
      exactly for a storable directory. */
  method CreateBackup(w: World, database: Bytes, disk: Disk, createdAt: string, gitSha: string)
    returns (r: Option<seq<Member>>)
    requires Hashes(w)
    ensures r.Some? ==> Backupable(w, database, disk, gitSha) && exists m :: Acceptable(w, r.value, m)
    ensures Lawful(w) && Stamp(w, createdAt) ==> (r.Some? <==> Storable(w, database, disk, gitSha))
    ensures r.Some? ==>
              exists m, copies :: Collected(w, database, disk, createdAt, gitSha, m, copies)
                                  && r.value == MembersOf(w, m, database, copies)
  {
    hide Lawful, Acceptable, MembersOf, Stamp, Backupable, Collected, ReferencesMatch, Contents, AllCarried;
    var m, members;
    ghost var copies;
    m, members, copies := BuildArchive(w, database, disk, createdAt, gitSha);
    if m.None? { return None; }
    CollectedNames(w, database, disk, createdAt, gitSha, m.value, copies);
    var verified := VerifyBackup(w, members);
    if Lawful(w) && Stamp(w, createdAt) {
      RoundTrip(w, database, disk, createdAt, gitSha, m.value, copies);
    }
    if verified.Err? { return None; }
    return Some(members);
  }

  /** From backup to staged restore: the snapshot and its referenced files, for
      every storable directory and for no other. */
  method BackupThenStage(w: World, database: Bytes, disk: Disk, createdAt: string, gitSha: string)
    returns (r: Option<Staged>)
    requires Lawful(w) && Stamp(w, createdAt)
    ensures r == if Storable(w, database, disk, gitSha)
                 then Some(Staged(database, Referenced(w.imageNames(database).value, disk)))
                 else None
  {
    hide Lawful, Acceptable, MembersOf, Stamp, Backupable, ReferencesMatch, Contents, AllCarried, ReferencesAre, Sha256;
    LawfulHashes(w);
    var archive := CreateBackup(w, database, disk, createdAt, gitSha);
    if archive.None? { return None; }
    ghost var m, copies :| Collected(w, database, disk, createdAt, gitSha, m, copies)
                           && archive.value == MembersOf(w, m, database, copies);
    RoundTrip(w, database, disk, createdAt, gitSha, m, copies);
    CollectedNames(w, database, disk, createdAt, gitSha, m, copies);
    var staged;
    ghost var m';
    staged, m' := StageRestore(w, archive.value);
    ghost var expected := Staged(database, Referenced(Filenames(m.images), disk));
    assert Contents(archive.value, m, expected);
    ContentsDatabase(archive.value, m, expected);
    return if staged.Ok? then Some(staged.value) else None;
  }

  lemma LawfulHashes(w: World)
    requires Lawful(w)
    ensures Hashes(w)
  {
  }

  lemma ContentsDatabase(members: seq<Member>, m: BackupManifest, staged: Staged)
    requires Contents(members, m, staged)
    ensures DataOf(members, DATABASE_ARCHIVE_PATH) == Some(staged.database)
  {
  }

  // ------------------------------------------------------- where acceptance stops

  /** An image the database does not reference. */
  function Orphan(w: World, database: Bytes, createdAt: string, gitSha: string, revision: string,
      filename: string, data: Bytes)
    : BackupManifest
  {
    BackupManifest(createdAt, gitSha, revision, Sha256(w, database), |database|, [EntryOf(w, filename, data)])
  }

  /** Acceptance does not imply that an archive restores: add one image to the
      archive of a database without images. */
  lemma AcceptedArchiveThatDoesNotRestore(
    w: World, database: Bytes, createdAt: string, gitSha: string, revision: string, filename: string, data: Bytes)
    requires Lawful(w) && createdAt != "" && w.isTimestamp(createdAt) && IsGitSha(gitSha) && IsUuidFilename(filename)
    requires w.valid(database) && w.revision(database) == Some(revision) && revision != ""
    requires w.imageNames(database) == Some([])
    ensures var m := Orphan(w, database, createdAt, gitSha, revision, filename, data);
            Acceptable(w, MembersOf(w, m, database, [data]), m) && !ReferencesMatch(w, database, m)
  {
    var m := Orphan(w, database, createdAt, gitSha, revision, filename, data);
    UuidIsGenerated(w, filename);
    OrphanIsConsistent(w, database, createdAt, gitSha, revision, filename, data);
    UuidIsCarried(filename);
    hide Lawful, Acceptable, Consistent, MembersOf, Carried;
    assert AllCarried(Filenames(m.images));
    WrittenArchiveIsAccepted(w, m, database, [data]);
    NotReferenced(w, database, m);
  }

  lemma NotReferenced(w: World, database: Bytes, m: BackupManifest)
    requires w.imageNames(database) == Some([]) && m.images != []
    ensures !ReferencesMatch(w, database, m)
  {
    assert Filenames(m.images)[0] in Filenames(m.images);
  }

  lemma OrphanIsConsistent(
    w: World, database: Bytes, createdAt: string, gitSha: string, revision: string, filename: string, data: Bytes)
    requires Lawful(w) && createdAt != "" && w.isTimestamp(createdAt) && IsGitSha(gitSha) && IsUuidFilename(filename)
    requires w.valid(database) && w.revision(database) == Some(revision) && revision != ""
    requires IsGeneratedImageFilename(w, filename)
    ensures Consistent(w, Orphan(w, database, createdAt, gitSha, revision, filename, data), database, [data])
  {
    hide Hashes, IsSha256, Sha256, IsGeneratedImageFilename, IsUuidFilename;
    DigestsAreSha256(w);
  }

  lemma UuidIsGenerated(w: World, filename: string)
    requires Lawful(w) && IsUuidFilename(filename)
    ensures IsGeneratedImageFilename(w, filename)
  {
    assert |filename[..32]| == 32 && AllHex(filename[..32]);
  }

  // ---------------------------------------------------------------- into the tree

  ghost predicate Restorable(w: World, members: seq<Member>) {
    exists m, database ::
      && Acceptable(w, members, m) && DataOf(members, DATABASE_ARCHIVE_PATH) == Some(database)
      && ReferencesMatch(w, database, m)
  }

  /** The operations of a restore after its checks: ownership if asked for, then
      those of applying the stage. This is the index of the last one. */
  function LastOperation(e: D.Entries, owned: bool): nat {
    D.Count(e, D.Live) + 3 + (if owned then 1 else 0)
  }

  /** Checks the archive, stages it next to the live state and applies it; the
      staging directory is removed whatever happens. `others` says whether the
      target holds entries besides the modelled ones. */
  method RestoreBackup(
    w: World, members: seq<Member>, tree: D.Tree, owned: bool, requireEmptyTarget: bool, others: bool)
    returns (ok: bool)
    requires Hashes(w) && !tree.overwrote
    requires D.Nothing(tree.entries, D.Prior) && D.Nothing(tree.entries, D.Stage) && D.StagedDatabase !in tree.entries
    modifies tree
    ensures ok <==>
              && Restorable(w, members)
              && (requireEmptyTarget ==> !others && old(tree.entries) == map[])
              && !(0 <= old(tree.fault) <= LastOperation(old(tree.entries), owned))
    ensures ok ==>
              exists m, staged: Staged ::
                && Acceptable(w, members, m) && ReferencesMatch(w, staged.database, m) && Contents(members, m, staged)
                && Installed(tree.entries, staged)
    ensures ok ==> D.SameState(old(tree.entries), D.Live, tree.entries, D.Prior)
    ensures !ok ==> D.SameState(old(tree.entries), D.Live, tree.entries, D.Live) && D.Nothing(tree.entries, D.Prior)
    ensures D.Nothing(tree.entries, D.Stage) && D.StagedDatabase !in tree.entries
  {
    hide Acceptable, ReferencesMatch, Contents, Hashes, D.AllPreserve, D.CountBelow, ImagesOf;
    var staged;
    ghost var m;
    staged, m := StageRestore(w, members);
    if staged.Ok? { ContentsDatabase(members, m.value, staged.value); }
    if requireEmptyTarget && (others || tree.entries != map[]) { return false; }
    if staged.Err? { return false; }
    ok := true;
    if owned { ok := tree.Touch(); }
    if ok { ok := ApplyStage(tree, staged.value); }
  }

  predicate Installed(e: D.Entries, staged: Staged) {
    && D.At(D.Live, D.Database) in e && e[D.At(D.Live, D.Database)] == D.Plain(staged.database)
    && D.At(D.Live, D.Images) in e && e[D.At(D.Live, D.Images)] == D.Folder(staged.images)
    && D.At(D.Live, D.Wal) !in e && D.At(D.Live, D.Shm) !in e
  }

  function WithStage(e: D.Entries, staged: Staged): D.Entries {
    e[D.StagedDatabase := D.Plain(staged.database)][D.At(D.Stage, D.Images) := D.Folder(staged.images)]
  }

  /** Puts the staged pair beside the live state, applies it, and removes what
      is left of the stage. */
  method ApplyStage(tree: D.Tree, staged: Staged) returns (ok: bool)
    requires D.Nothing(tree.entries, D.Prior) && D.Nothing(tree.entries, D.Stage) && D.StagedDatabase !in tree.entries
    requires !tree.overwrote
    modifies tree
    ensures ok <==> !(0 <= old(tree.fault) <= D.Count(old(tree.entries), D.Live) + 3)
    ensures ok ==> Installed(tree.entries, staged) && D.SameState(old(tree.entries), D.Live, tree.entries, D.Prior)
    ensures !ok ==> D.SameState(old(tree.entries), D.Live, tree.entries, D.Live) && D.Nothing(tree.entries, D.Prior)
    ensures D.Nothing(tree.entries, D.Stage) && D.StagedDatabase !in tree.entries
  {
    hide D.AllPreserve, D.CountBelow;
    tree.entries := WithStage(tree.entries, staged);
    ghost var start := tree.entries;
    D.SamePlaceSameCount(old(tree.entries), start, D.Live, D.Live, 4);
    ok := tree.ApplyStagedRestore();
    ghost var applied := tree.entries;
    tree.entries := map p | p in tree.entries && p.At? && p.place != D.Stage :: tree.entries[p];
    if ok {
      assert D.SameEntry(start, D.StagedDatabase, applied, D.At(D.Live, D.Database));
      assert D.SameEntry(start, D.At(D.Stage, D.Images), applied, D.At(D.Live, D.Images));
      forall n ensures D.SameEntry(start, D.At(D.Live, n), tree.entries, D.At(D.Prior, n)) {
        assert D.SameEntry(start, D.At(D.Live, n), applied, D.At(D.Prior, n));
      }
    } else {
      forall n ensures D.SameEntry(start, D.At(D.Live, n), tree.entries, D.At(D.Live, n)) {
        assert D.SameEntry(start, D.At(D.Live, n), applied, D.At(D.Live, n));
      }
    }
  }
}
