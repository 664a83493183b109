/** create_backup and restore_backup around the archive: what is collected, what
    the staged restore demands, and the round trip between them. */
module Archive {
  import opened Wrappers
  import opened Checksums
  import opened Manifest
  import opened Verify

  /** What the program relies on of its libraries. */
  ghost predicate Lawful(w: World) {
    && Hashes(w)
    && (forall db :: w.imageNames(db).Some? ==> Sorted(w.imageNames(db).value))
    && (forall m :: w.loads(w.dumps(ManifestJson(m))) == Some(ManifestJson(m)))
    && (forall s :: |s| == 32 && AllHex(s) ==> w.isBase16(s) && w.lower(s) == s)
  }

  /** ORDER BY image_filename. */
  ghost predicate Sorted(names: seq<string>) {
    forall j, k :: 0 <= j < k < |names| ==> names[j] == names[k] || Less(names[j], names[k])
  }

  // ---------------------------------------------------------------- references

  ghost predicate ReferencesAre(w: World, database: Bytes, names: seq<string>) {
    && w.imageNames(database) == Some(names)
    && Distinct(names)
    && forall k :: 0 <= k < |names| ==> IsGeneratedImageFilename(w, names[k])
  }

  /** The rows, unless they cannot be read, repeat a name or hold one that is
      not of the generated form. */
  method ReferencedImageFilenames(w: World, database: Bytes) returns (r: Option<seq<string>>)
    ensures r.Some? ==> ReferencesAre(w, database, r.value)
    ensures r.None? ==> forall names :: !ReferencesAre(w, database, names)
  {
    var rows := w.imageNames(database);
    if rows.None? { return None; }
    var filenames := rows.value;
    AllDifferent(filenames);
    if |filenames| != |set n | n in filenames| { return None; }
    for k := 0 to |filenames|
      invariant forall j :: 0 <= j < k ==> IsGeneratedImageFilename(w, filenames[j])
    {
      if !IsGeneratedImageFilename(w, filenames[k]) { return None; }
    }
    return Some(filenames);
  }

  // ------------------------------------------------------------------ creation

  /** The image files of a data directory; a symbolic link is not among them. */
  type Disk = map<string, Bytes>

  ghost predicate AllOnDisk(names: seq<string>, disk: Disk) {
    forall k :: 0 <= k < |names| ==> names[k] in disk
  }

  function EntryOf(w: World, filename: string, data: Bytes): ImageEntry {
    ImageEntry(filename, ImagePath(filename), Sha256(w, data), |data|)
  }

  method CopyReferencedImages(w: World, database: Bytes, disk: Disk)
    returns (r: Option<seq<ImageEntry>>, copies: seq<Bytes>)
    requires Hashes(w)
    ensures r.Some? ==>
              && ReferencesAre(w, database, Filenames(r.value)) && |copies| == |r.value|
              && forall k :: 0 <= k < |copies| ==>
                   && r.value[k].filename in disk && copies[k] == disk[r.value[k].filename]
                   && r.value[k] == EntryOf(w, r.value[k].filename, copies[k])
    ensures r.None? ==> forall names :: !(ReferencesAre(w, database, names) && AllOnDisk(names, disk))
  {
    hide Hashes, Sha256, IsGeneratedImageFilename;
    copies := [];
    var rows := ReferencedImageFilenames(w, database);
    if rows.None? { return None, []; }
    var filenames := rows.value;
    var entries: seq<ImageEntry> := [];
    for k := 0 to |filenames|
      invariant |entries| == |copies| == k
      invariant forall j :: 0 <= j < k ==>
                  && filenames[j] in disk && copies[j] == disk[filenames[j]]
                  && entries[j] == EntryOf(w, filenames[j], copies[j])
    {
      if filenames[k] !in disk { return None, []; }
      var data := disk[filenames[k]];
      var digest, total, copy := HashMember(w, data);
      copies := copies + [copy];
      entries := entries + [ImageEntry(filenames[k], ImagePath(filenames[k]), digest, total)];
    }
    assert Filenames(entries) == filenames;
    return Some(entries), copies;
  }

  /** The tar file written for a manifest: its members in order. */
  function MembersOf(w: World, m: BackupManifest, database: Bytes, copies: seq<Bytes>): (members: seq<Member>)
    requires |copies| == |m.images|
    ensures |members| == |m.images| + 3
  {
    [Member(DATABASE_ARCHIVE_PATH, true, database)] +
    seq(|copies|, k requires 0 <= k < |copies| => Member(m.images[k].path, true, copies[k])) +
    [Member(MANIFEST_PATH, true, w.dumps(ManifestJson(m))), Member(CHECKSUMS_PATH, true, Print(Lines(m)))]
  }

  ghost predicate Backupable(w: World, database: Bytes, disk: Disk, gitSha: string) {
    && IsGitSha(gitSha) && w.valid(database)
    && w.revision(database).Some? && w.revision(database).value != ""
    && exists names :: ReferencesAre(w, database, names) && AllOnDisk(names, disk) && AllAscii(names)
  }

  /** The listing is encoded as ASCII. */
  ghost predicate AllAscii(names: seq<string>) {
    forall k :: 0 <= k < |names| ==> IsAscii(names[k])
  }

  /** `m` and the copied files are those of this database and disk. */
  ghost predicate Collected(
    w: World, database: Bytes, disk: Disk, createdAt: string, gitSha: string, m: BackupManifest, copies: seq<Bytes>)
  {
    && m.createdAt == createdAt && m.gitSha == gitSha && IsGitSha(gitSha)
    && w.valid(database) && w.revision(database) == Some(m.schemaRevision) && m.schemaRevision != ""
    && m.databaseSha256 == Sha256(w, database) && m.databaseBytes == |database|
    && ReferencesAre(w, database, Filenames(m.images)) && |copies| == |m.images|
    && forall k :: 0 <= k < |copies| ==>
         && m.images[k].filename in disk && copies[k] == disk[m.images[k].filename]
         && m.images[k] == EntryOf(w, m.images[k].filename, copies[k])
  }

  /** Everything between the snapshot and the verification of the new archive. */
  method BuildArchive(w: World, database: Bytes, disk: Disk, createdAt: string, gitSha: string)
    returns (r: Option<BackupManifest>, members: seq<Member>, ghost copies: seq<Bytes>)
    requires Hashes(w)
    ensures r.Some? <==> Backupable(w, database, disk, gitSha)
    ensures r.Some? ==> Collected(w, database, disk, createdAt, gitSha, r.value, copies)
                        && members == MembersOf(w, r.value, database, copies)
  {
    hide Hashes, ReferencesAre, AllOnDisk, AllAscii, Sha256, MembersOf, IsGitSha, Lines, Print, IsAscii, IsSha256;
    DigestsAreSha256(w);
    members, copies := [], [];
    if !IsGitSha(gitSha) || !w.valid(database) { return None, [], []; }
    var revision := w.revision(database);
    if revision.None? || revision.value == "" { return None, [], []; }
    var images: Option<seq<ImageEntry>>;
    var files: seq<Bytes>;
    images, files := CopyReferencedImages(w, database, disk);
    if images.None? { return None, [], []; }
    assert AllOnDisk(Filenames(images.value), disk) by { CopiesOnDisk(images.value, disk); }
    var digest, total, copy := HashMember(w, database);
    var m := BackupManifest(createdAt, gitSha, revision.value, digest, total, images.value);
    assert IsAscii(Print(Lines(m))) <==> AllAscii(Filenames(images.value)) by { ListingIsAscii(w, m); }
    OneListOfNames(w, database, Filenames(images.value));
    if !IsAscii(Print(Lines(m))) { return None, [], []; }
    return Some(m), MembersOf(w, m, copy, files), files;
  }

  lemma OneListOfNames(w: World, database: Bytes, names: seq<string>)
    requires ReferencesAre(w, database, names)
    ensures forall other :: ReferencesAre(w, database, other) ==> other == names
  {
  }

  lemma ListingIsAscii(w: World, m: BackupManifest)
    requires IsSha256(m.databaseSha256)
    requires forall k :: 0 <= k < |m.images| ==>
               IsSha256(m.images[k].sha256) && m.images[k].path == ImagePath(m.images[k].filename)
    ensures IsAscii(Print(Lines(m))) <==> AllAscii(Filenames(m.images))
  {
    DatabasePathIsPrintable();
    assert IsAscii(DATABASE_ARCHIVE_PATH);
    hide IsSha256, IsAscii, Print, ImagePath;
    var lines := Lines(m);
    PrintIsAscii(lines);
    forall k | 1 <= k < |lines| ensures IsAscii(lines[k].path) <==> IsAscii(m.images[k - 1].filename) {
      PathIsAscii(m.images[k - 1].filename);
    }
    if AllAsciiPaths(lines) {
      forall k | 0 <= k < |m.images| ensures IsAscii(Filenames(m.images)[k]) {
        assert IsAscii(lines[k + 1].path);
      }
    } else {
      var k :| 0 <= k < |lines| && !IsAscii(lines[k].path);
      assert !IsAscii(Filenames(m.images)[k - 1]);
    }
  }

  lemma PathIsAscii(filename: string)
    ensures IsAscii(ImagePath(filename)) <==> IsAscii(filename)
  {
    AsciiConcat("images/", filename);
  }

  lemma CopiesOnDisk(images: seq<ImageEntry>, disk: Disk)
    requires forall k :: 0 <= k < |images| ==> images[k].filename in disk
    ensures AllOnDisk(Filenames(images), disk)
  {
  }

  // ----------------------------------------------------------------- safe names

  predicate NoSlash(s: string) {
    forall k :: 0 <= k < |s| ==> s[k] != '/'
  }

  lemma OneComponent(s: string)
    requires NoSlash(s)
    ensures Components(s) == [s]
  {
  }

  lemma TwoComponents(a: string, b: string)
    requires NoSlash(a) && NoSlash(b)
    ensures Components(a + "/" + b) == [a, b]
  {
    var s := a + "/" + b;
    assert s[|a|] == '/';
    assert forall k :: 0 <= k < |a| ==> s[k] == a[k];
    assert s[..|a|] == a && s[|a| + 1..] == b;
    OneComponent(b);
  }

  lemma SafeImagePath(filename: string)
    requires IsUuidFilename(filename)
    ensures SafeName(ImagePath(filename))
  {
    forall k | 0 <= k < |filename| ensures filename[k] != '/' {
      if k < 32 {
        assert IsHex(filename[..32][k]);
      } else {
        assert filename[k] == filename[32..][k - 32];
      }
    }
    assert ImagePath(filename) == "images" + "/" + filename;
    TwoComponents("images", filename);
  }

  lemma SafeDatabasePath()
    ensures SafeName(DATABASE_ARCHIVE_PATH)
  {
    var file := DATABASE_STEM + ".sqlite3";
    assert NoSlash(DATABASE_STEM) && NoSlash(".sqlite3");
    assert DATABASE_ARCHIVE_PATH == "database" + "/" + file;
    assert file != "" && |file| > 2;
    TwoComponents("database", file);
  }

  lemma SafeWithoutSlash(name: string)
    requires NoSlash(name) && |name| > 2
    ensures SafeName(name)
  {
    OneComponent(name);
  }

  lemma SafeManifestPath()
    ensures SafeName(MANIFEST_PATH)
  {
    SafeWithoutSlash(MANIFEST_PATH);
  }

  lemma SafeChecksumsPath()
    ensures SafeName(CHECKSUMS_PATH)
  {
    SafeWithoutSlash(CHECKSUMS_PATH);
  }

  // ----------------------------------------------------------------- round trip

  /** A name that the listing and the tar file can carry. */
  predicate Carried(filename: string) {
    Printable(ImagePath(filename)) && SafeName(ImagePath(filename))
  }

  ghost predicate AllCarried(names: seq<string>) {
    forall k :: 0 <= k < |names| ==> Carried(names[k])
  }

  /** Any name of plain characters is carried, so also one with a sign or an
      underscore that the conversion lets through. */
  lemma PlainIsCarried(filename: string)
    requires IsPlain(filename) && NoSlash(filename) && |filename| > 2
    ensures Carried(filename)
  {
    assert IsPlain("images/");
    PlainConcat("images/", filename);
    PlainIsPrintable(ImagePath(filename));
    assert ImagePath(filename) == "images" + "/" + filename;
    TwoComponents("images", filename);
  }

  lemma {:induction false} GapIsFound(s: string, k: nat)
    requires k + 1 < |s| && s[k] == s[k + 1] == ' '
    ensures FirstGap(s) < |s|
  {
    if k > 0 { GapIsFound(s[1..], k - 1); }
  }

  /** A name with two adjacent spaces, which the conversion lets through too, is
      not carried. */
  lemma DoubleSpaceIsNotCarried(filename: string, k: nat)
    requires k + 1 < |filename| && filename[k] == filename[k + 1] == ' '
    ensures !Carried(filename)
  {
    assert ImagePath(filename)[k + 7] == filename[k] && ImagePath(filename)[k + 8] == filename[k + 1];
    GapIsFound(ImagePath(filename), k + 7);
  }

  /** Every name the application makes is carried. */
  lemma UuidIsCarried(filename: string)
    requires IsUuidFilename(filename)
    ensures Carried(filename)
  {
    UuidPathIsPrintable(filename);
    SafeImagePath(filename);
  }

  lemma SortedAndDistinct(names: seq<string>)
    requires Sorted(names) && Distinct(names)
    ensures Ascending(names)
  {
  }

  lemma CollectedIsWellFormed(
    w: World, database: Bytes, disk: Disk, createdAt: string, gitSha: string, m: BackupManifest, copies: seq<Bytes>)
    requires Lawful(w) && Collected(w, database, disk, createdAt, gitSha, m, copies)
    requires createdAt != "" && w.isTimestamp(createdAt)
    ensures WellFormed(w, m)
  {
    hide Sorted, Distinct, Ascending, IsSha256, IsGeneratedImageFilename, Hashes, Sha256;
    DigestsAreSha256(w);
    SortedAndDistinct(Filenames(m.images));
  }

  /** A well-formed manifest with files that match it. */
  ghost predicate Consistent(w: World, m: BackupManifest, database: Bytes, copies: seq<Bytes>) {
    && WellFormed(w, m) && |copies| == |m.images|
    && w.valid(database) && w.revision(database) == Some(m.schemaRevision)
    && Sha256(w, database) == m.databaseSha256 && |database| == m.databaseBytes
    && forall k :: 0 <= k < |copies| ==> Sha256(w, copies[k]) == m.images[k].sha256 && |copies[k]| == m.images[k].bytes
  }

  ghost predicate AllPathsPrintable(m: BackupManifest) {
    forall k :: 0 <= k < |m.images| ==> Printable(m.images[k].path)
  }

  lemma GeneratedPathIsBounded(w: World, filename: string)
    requires IsGeneratedImageFilename(w, filename)
    ensures Bounded(ImagePath(filename))
  {
    assert filename[36] == filename[32..][4] == 'p';
  }

  /** The listing of a well-formed manifest reads back as the map verification
      expects exactly if every path can be printed. */
  lemma LinesRoundTrip(w: World, m: BackupManifest)
    requires WellFormed(w, m)
    ensures Parsed(Print(Lines(m))) == Ok(Expected(m)) <==> AllPathsPrintable(m)
  {
    DatabasePathIsPrintable();
    DatabasePathIsBounded();
    hide Printable, IsSha256, Print, Parsed, Assign, IsGeneratedImageFilename, Ascending, Bounded, ImagePath;
    var lines := Lines(m);
    forall k | 1 <= k < |lines| ensures Bounded(lines[k].path) && lines[k].path == m.images[k - 1].path {
      GeneratedPathIsBounded(w, m.images[k - 1].filename);
    }
    ListingReadsBack(lines);
    if AllPrintable(lines) {
      forall k | 0 <= k < |m.images| ensures Printable(m.images[k].path) {
        assert Printable(lines[k + 1].path);
      }
    } else {
      var k :| 0 <= k < |lines| && !Printable(lines[k].path);
      assert !Printable(m.images[k - 1].path);
    }
  }

  lemma DatabasePathIsBounded()
    ensures Bounded(DATABASE_ARCHIVE_PATH)
  {
    assert |DATABASE_ARCHIVE_PATH| == 32 && DATABASE_ARCHIVE_PATH[31] == '3';
  }

  lemma NamesDiffer(w: World, m: BackupManifest, database: Bytes, copies: seq<Bytes>)
    requires WellFormed(w, m) && |copies| == |m.images|
    ensures var members := MembersOf(w, m, database, copies);
            forall j, k :: 0 <= j < k < |members| ==> members[j].name != members[k].name
  {
    PrintedManifest(w, m);
    hide WellFormed, Describes;
    LinesAreDistinct(w, ManifestJson(m), m);
    DatabaseIsData();
    assert MANIFEST_PATH[0] == 'm' && CHECKSUMS_PATH[0] == 'c';
    var members, lines, n := MembersOf(w, m, database, copies), Lines(m), |m.images|;
    assert members[n + 1].name == MANIFEST_PATH && members[n + 2].name == CHECKSUMS_PATH;
    forall k | 0 <= k <= n ensures members[k].name == lines[k].path && IsData(members[k].name) {
      if k > 0 { assert members[k].name == m.images[k - 1].path; }
    }
    hide Lines, MembersOf, IsData;
    DataAndLists(members, lines, n);
  }

  lemma DataAndLists(members: seq<Member>, lines: seq<Entry>, n: nat)
    requires |members| == n + 3 && |lines| == n + 1 && DistinctPaths(lines)
    requires forall k :: 0 <= k <= n ==> members[k].name == lines[k].path && IsData(members[k].name)
    requires members[n + 1].name == MANIFEST_PATH && members[n + 2].name == CHECKSUMS_PATH
    requires MANIFEST_PATH != CHECKSUMS_PATH
    ensures forall j, k :: 0 <= j < k < |members| ==> members[j].name != members[k].name
  {
  }

  /** The members as they are listed: the database, the images, both lists. */
  ghost predicate Listed(members: seq<Member>, m: BackupManifest) {
    var n := |m.images|;
    && |members| == n + 3 && members[0].name == DATABASE_ARCHIVE_PATH
    && members[n + 1].name == MANIFEST_PATH && members[n + 2].name == CHECKSUMS_PATH
    && forall k :: 0 <= k < n ==> members[k + 1].name == m.images[k].path
  }

  ghost predicate AllPathsSafe(m: BackupManifest) {
    forall k :: 0 <= k < |m.images| ==> SafeName(m.images[k].path)
  }

  lemma ListedAreSafe(members: seq<Member>, m: BackupManifest)
    requires Listed(members, m)
    ensures (forall k :: 0 <= k < |members| ==> SafeName(members[k].name)) <==> AllPathsSafe(m)
  {
    hide SafeName;
    SafeDatabasePath();
    SafeManifestPath();
    SafeChecksumsPath();
    var n := |m.images|;
    forall k | 0 <= k < n ensures members[k + 1].name == m.images[k].path {
    }
    forall k | 0 <= k < |members| ensures AllPathsSafe(m) ==> SafeName(members[k].name) {
      if 1 <= k <= n { assert members[k - 1 + 1].name == m.images[k - 1].path; }
    }
  }

  lemma NamesAreSafe(w: World, m: BackupManifest, database: Bytes, copies: seq<Bytes>)
    requires WellFormed(w, m) && |copies| == |m.images|
    ensures AllSafe(MembersOf(w, m, database, copies)) <==> AllPathsSafe(m)
  {
    var members := MembersOf(w, m, database, copies);
    NamesDiffer(w, m, database, copies);
    assert Listed(members, m);
    hide SafeName, WellFormed, Listed;
    assert members != [] && forall k :: 0 <= k < |members| ==> members[k].regular;
    hide MembersOf, AllPathsSafe;
    ListedAreSafe(members, m);
  }

  /** What an archive holds under each of its names. */
  lemma DataOfMembers(w: World, m: BackupManifest, database: Bytes, copies: seq<Bytes>)
    requires WellFormed(w, m) && |copies| == |m.images|
    ensures var members := MembersOf(w, m, database, copies);
            && DataOf(members, DATABASE_ARCHIVE_PATH) == Some(database)
            && DataOf(members, MANIFEST_PATH) == Some(w.dumps(ManifestJson(m)))
            && DataOf(members, CHECKSUMS_PATH) == Some(Print(Lines(m)))
            && forall k :: 0 <= k < |copies| ==> DataOf(members, m.images[k].path) == Some(copies[k])
    ensures Names(MembersOf(w, m, database, copies)) == ArchivePaths(m)
  {
    NamesDiffer(w, m, database, copies);
    hide DataOf, WellFormed, ManifestJson, Lines, Print;
    var members, n := MembersOf(w, m, database, copies), |m.images|;
    DataAt(members, 0);
    DataAt(members, n + 1);
    DataAt(members, n + 2);
    forall k | 0 <= k < |copies| ensures DataOf(members, m.images[k].path) == Some(copies[k]) {
      DataAt(members, k + 1);
    }
    MemberNames(members, m);
  }

  lemma MemberNames(members: seq<Member>, m: BackupManifest)
    requires Listed(members, m)
    ensures Names(members) == ArchivePaths(m)
  {
    var n := |m.images|;
    forall p | p in ArchivePaths(m) ensures p in Names(members) {
      if p != DATABASE_ARCHIVE_PATH && p != MANIFEST_PATH && p != CHECKSUMS_PATH {
        var k :| 0 <= k < n && m.images[k].path == p;
        assert members[k + 1].name == p;
      }
    }
    forall p | p in Names(members) ensures p in ArchivePaths(m) {
      var k :| 0 <= k < |members| && members[k].name == p;
      if 1 <= k <= n { assert m.images[k - 1].path == p; }
    }
  }

  lemma MembersMatch(w: World, m: BackupManifest, database: Bytes, copies: seq<Bytes>, k: nat)
    requires Consistent(w, m, database, copies) && k < |copies| + 3
    ensures var member := MembersOf(w, m, database, copies)[k];
            IsData(member.name) ==> Matches(w, m, member)
  {
    hide WellFormed, Sha256, ManifestJson, Lines, Print;
    var members, n := MembersOf(w, m, database, copies), |m.images|;
    if 1 <= k <= n {
      NamesDiffer(w, m, database, copies);
      assert members[0].name != members[k].name;
      assert members[k].name == m.images[k - 1].path && members[k].data == copies[k - 1];
    }
  }

  lemma WrittenLists(w: World, m: BackupManifest, database: Bytes, copies: seq<Bytes>)
    requires Lawful(w) && Consistent(w, m, database, copies)
    ensures var members := MembersOf(w, m, database, copies);
            && HasManifest(w, members, m) && HasDatabase(w, members, m)
            && (HasListing(members, m) <==> AllPathsPrintable(m))
  {
    DataOfMembers(w, m, database, copies);
    LinesRoundTrip(w, m);
    PrintedManifest(w, m);
    hide MembersOf, Hashes, Sha256, WellFormed, Parsed, Print, Lines, Expected, Describes, ManifestJson, DataOf,
        AllPathsPrintable;
  }

  /** The archive written for a consistent manifest is accepted exactly if every
      image name is carried, and then with that manifest and no other. */
  lemma WrittenArchiveIsAccepted(w: World, m: BackupManifest, database: Bytes, copies: seq<Bytes>)
    requires Lawful(w) && Consistent(w, m, database, copies)
    ensures Acceptable(w, MembersOf(w, m, database, copies), m) <==> AllCarried(Filenames(m.images))
    ensures forall m' :: Acceptable(w, MembersOf(w, m, database, copies), m') ==> m' == m
  {
    hide Lawful, AllSafe, WellFormed, MembersOf, Matches, IsData, ArchivePaths, Names, HasManifest, HasListing,
        HasDatabase, Sha256, AllCarried, AllPathsPrintable, AllPathsSafe;
    var members := MembersOf(w, m, database, copies);
    NamesAreSafe(w, m, database, copies);
    DataOfMembers(w, m, database, copies);
    WrittenLists(w, m, database, copies);
    CarriedPaths(w, m);
    forall k | 0 <= k < |members| && IsData(members[k].name) ensures Matches(w, m, members[k]) {
      MembersMatch(w, m, database, copies, k);
    }
    forall m' | Acceptable(w, members, m') ensures m' == m {
      AcceptedManifestIsUnique(w, members, m, m');
    }
  }

  lemma CarriedPaths(w: World, m: BackupManifest)
    requires WellFormed(w, m)
    ensures AllCarried(Filenames(m.images)) <==> AllPathsPrintable(m) && AllPathsSafe(m)
  {
    hide Printable, SafeName, IsGeneratedImageFilename, IsSha256, Ascending, ImagePath;
    forall k | 0 <= k < |m.images|
      ensures Filenames(m.images)[k] == m.images[k].filename
      ensures Carried(m.images[k].filename) <==> Printable(m.images[k].path) && SafeName(m.images[k].path)
    {
    }
  }
}
