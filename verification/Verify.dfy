/** verify_backup: which archives are accepted, for archives of any content. */
module Verify {
  import opened Wrappers
  import opened Checksums
  import opened Manifest

  const CHUNK_SIZE: nat := 1_048_576

  /** A member of the tar file; only regular files have data to extract. */
  datatype Member = Member(name: string, regular: bool, data: Bytes)

  datatype Refusal =
    UnsafeMember | MissingMember | BadManifest | UnexpectedFiles | BadChecksums | Mismatch | BadDatabase | BadImages

  // ------------------------------------------------------------ streamed hashing

  /** Feeding a hash in pieces is feeding it the whole, and its digest is 64
      lower-case hex digits. */
  ghost predicate Hashes(w: World) {
    && (forall h :: IsSha256(w.hexdigest(h)))
    && (forall h, a, b :: w.update(w.update(h, a), b) == w.update(h, a + b))
    && (forall h :: w.update(h, "") == h)
  }

  lemma DigestsAreSha256(w: World)
    requires Hashes(w)
    ensures forall data :: IsSha256(Sha256(w, data))
  {
  }

  /** Reads the data chunk by chunk; `copy` is what is written to the database
      copy on the way. */
  method HashMember(w: World, data: Bytes) returns (digest: string, total: nat, copy: Bytes)
    requires Hashes(w)
    ensures digest == Sha256(w, data) && total == |data| && copy == data
  {
    var hash, position := w.start, 0;
    total, copy := 0, "";
    while true
      invariant total == position <= |data| && copy == data[..position]
      invariant hash == w.update(w.start, data[..position])
      decreases |data| - position
    {
      var chunk := if position + CHUNK_SIZE <= |data| then data[position..position + CHUNK_SIZE] else data[position..];
      if chunk == "" { break; }
      assert data[..position] + chunk == data[..position + |chunk|];
      hash := w.update(hash, chunk);
      total, copy, position := total + |chunk|, copy + chunk, position + |chunk|;
    }
    assert data[..position] == data;
    digest := w.hexdigest(hash);
  }

  // --------------------------------------------------------------------- members

  function FirstSlash(s: string): (n: nat)
    ensures n <= |s| && (n < |s| ==> s[n] == '/') && forall k :: 0 <= k < n ==> s[k] != '/'
  {
    if s == "" || s[0] == '/' then 0 else 1 + FirstSlash(s[1..])
  }

  /** The parts between slashes. */
  function Components(name: string): seq<string>
    decreases |name|
  {
    var n := FirstSlash(name);
    if n == |name| then [name] else [name[..n]] + Components(name[n + 1..])
  }

  function Joined(parts: seq<string>): string
    requires parts != []
  {
    if |parts| == 1 then parts[0] else parts[0] + "/" + Joined(parts[1..])
  }

  /** The components are what the slashes separate. */
  lemma {:induction false} ComponentsMean(name: string)
    ensures Components(name) != [] && Joined(Components(name)) == name
    ensures forall k :: 0 <= k < |Components(name)| ==> '/' !in Components(name)[k]
    decreases |name|
  {
    var n := FirstSlash(name);
    if n < |name| {
      ComponentsMean(name[n + 1..]);
      assert Components(name)[1..] == Components(name[n + 1..]);
      assert name == name[..n] + "/" + name[n + 1..];
    }
  }

  predicate IsPlainComponent(c: string) {
    c != "" && c != "." && c != ".."
  }

  /** Not absolute, no `..`, and already in the form `as_posix` gives. */
  predicate SafeName(name: string) {
    name == "." || forall c :: c in Components(name) ==> IsPlainComponent(c)
  }

  ghost predicate AllSafe(members: seq<Member>) {
    && members != []
    && (forall j, k :: 0 <= j < k < |members| ==> members[j].name != members[k].name)
    && (forall k :: 0 <= k < |members| ==> SafeName(members[k].name) && members[k].regular)
  }

  method ValidateTarMembers(members: seq<Member>) returns (safe: bool)
    ensures safe <==> AllSafe(members)
  {
    if members == [] { return false; }
    var names: set<string> := {};
    for k := 0 to |members|
      invariant names == set j | 0 <= j < k :: members[j].name
      invariant forall j, i :: 0 <= j < i < k ==> members[j].name != members[i].name
      invariant forall j :: 0 <= j < k ==> SafeName(members[j].name) && members[j].regular
    {
      var member := members[k];
      if member.name in names || !SafeName(member.name) || !member.regular { return false; }
      names := names + {member.name};
    }
    return true;
  }

  function Names(members: seq<Member>): set<string> {
    set k | 0 <= k < |members| :: members[k].name
  }

  /** The data of the first member of that name. */
  function DataOf(members: seq<Member>, name: string): (d: Option<Bytes>)
    ensures d.Some? <==> exists k :: 0 <= k < |members| && members[k].name == name
  {
    if members == [] then None
    else if members[0].name == name then Some(members[0].data)
    else
      assert forall k :: 1 <= k < |members| ==> members[k] == members[1..][k - 1];
      DataOf(members[1..], name)
  }

  method MemberByName(members: seq<Member>, name: string) returns (data: Option<Bytes>)
    ensures data == DataOf(members, name)
  {
    for k := 0 to |members|
      invariant DataOf(members, name) == DataOf(members[k..], name)
    {
      if members[k].name == name { return Some(members[k].data); }
      assert members[k..][1..] == members[k + 1..];
    }
    return None;
  }

  lemma {:induction false} DataAt(members: seq<Member>, k: nat)
    requires k < |members|
    requires forall i, j :: 0 <= i < j < |members| ==> members[i].name != members[j].name
    ensures DataOf(members, members[k].name) == Some(members[k].data)
  {
    if k > 0 {
      assert members[0].name != members[k].name;
      DataAt(members[1..], k - 1);
    }
  }

  // ------------------------------------------------------------------ acceptance

  function ArchivePaths(m: BackupManifest): set<string> {
    {DATABASE_ARCHIVE_PATH, MANIFEST_PATH, CHECKSUMS_PATH} + set k | 0 <= k < |m.images| :: m.images[k].path
  }

  function Expected(m: BackupManifest): map<string, string> {
    Assign(Lines(m), map[])
  }

  /** The whole content of a data member has the digest and the length that the
      manifest states for it. */
  ghost predicate Matches(w: World, m: BackupManifest, member: Member) {
    if member.name == DATABASE_ARCHIVE_PATH
    then Sha256(w, member.data) == m.databaseSha256 && |member.data| == m.databaseBytes
    else exists k :: 0 <= k < |m.images| && m.images[k].path == member.name
                     && Sha256(w, member.data) == m.images[k].sha256 && |member.data| == m.images[k].bytes
  }

  predicate IsData(name: string) {
    name != MANIFEST_PATH && name != CHECKSUMS_PATH
  }

  ghost predicate HasManifest(w: World, members: seq<Member>, m: BackupManifest) {
    var data := DataOf(members, MANIFEST_PATH);
    data.Some? && w.loads(data.value).Some? && Describes(w, w.loads(data.value).value, m)
  }

  ghost predicate HasListing(members: seq<Member>, m: BackupManifest) {
    var data := DataOf(members, CHECKSUMS_PATH);
    data.Some? && Parsed(data.value) == Ok(Expected(m))
  }

  ghost predicate HasDatabase(w: World, members: seq<Member>, m: BackupManifest) {
    var data := DataOf(members, DATABASE_ARCHIVE_PATH);
    data.Some? && w.valid(data.value) && w.revision(data.value) == Some(m.schemaRevision)
  }

  /** The archives `verify_backup` promises to accept, and their manifest. */
  ghost predicate Acceptable(w: World, members: seq<Member>, m: BackupManifest) {
    && AllSafe(members)
    && HasManifest(w, members, m)
    && Names(members) == ArchivePaths(m)
    && HasListing(members, m)
    && (forall k :: 0 <= k < |members| && IsData(members[k].name) ==> Matches(w, m, members[k]))
    && HasDatabase(w, members, m)
  }

  lemma AcceptedManifestIsUnique(w: World, members: seq<Member>, m: BackupManifest, m': BackupManifest)
    requires HasManifest(w, members, m) && HasManifest(w, members, m')
    ensures m == m'
  {
    OneManifest(w, w.loads(DataOf(members, MANIFEST_PATH).value).value, m, m');
  }

  lemma LinesAreDistinct(w: World, j: Json, m: BackupManifest)
    requires Describes(w, j, m)
    ensures DistinctPaths(Lines(m))
    ensures forall k :: 0 <= k < |m.images| ==> m.images[k].path != DATABASE_ARCHIVE_PATH && IsData(m.images[k].path)
  {
    DescribedPaths(w, j, m);
    hide Describes, Ascending, DistinctPaths, IsData, ImagePath;
    var lines := Lines(m);
    forall k | 0 <= k < |m.images| ensures lines[k + 1].path == ImagePath(Filenames(m.images)[k]) {
    }
    ImagePathsDiffer(Filenames(m.images), lines);
  }

  lemma DescribedPaths(w: World, j: Json, m: BackupManifest)
    requires Describes(w, j, m)
    ensures Ascending(Filenames(m.images))
    ensures forall k :: 0 <= k < |m.images| ==> m.images[k].path == ImagePath(m.images[k].filename)
  {
    hide IsGeneratedImageFilename, IsSha256, IsGitSha;
    forall k | 0 <= k < |m.images| ensures m.images[k].path == ImagePath(m.images[k].filename) {
      assert DescribesImage(w, Field(j.fields, "images").items[k], m.images[k]);
    }
  }

  lemma ImagePathsDiffer(names: seq<string>, lines: seq<Entry>)
    requires Ascending(names) && |lines| == |names| + 1 && lines[0].path == DATABASE_ARCHIVE_PATH
    requires forall k :: 0 <= k < |names| ==> lines[k + 1].path == ImagePath(names[k])
    ensures DistinctPaths(lines)
    ensures forall k :: 0 <= k < |names| ==> ImagePath(names[k]) != DATABASE_ARCHIVE_PATH && IsData(ImagePath(names[k]))
  {
    forall k | 0 <= k < |names|
      ensures ImagePath(names[k]) != DATABASE_ARCHIVE_PATH && IsData(ImagePath(names[k]))
    {
      assert ImagePath(names[k])[0] == 'i';
      assert DATABASE_ARCHIVE_PATH[0] == 'd';
    }
    forall j, k | 0 <= j < k < |lines| ensures lines[j].path != lines[k].path {
      if j > 0 {
        assert Less(names[j - 1], names[k - 1]);
        NotLessThanItself(names[j - 1]);
        assert ImagePath(names[j - 1])[7..] == names[j - 1] && ImagePath(names[k - 1])[7..] == names[k - 1];
      } else {
        assert lines[k].path == ImagePath(names[k - 1]);
      }
    }
  }

  /** What the two lookups of the verification loop find for a data member. */
  lemma ExpectedOf(m: BackupManifest, name: string)
    requires DistinctPaths(Lines(m)) && name in ArchivePaths(m) && IsData(name)
    ensures name in Expected(m)
    ensures name == DATABASE_ARCHIVE_PATH ==> Expected(m)[name] == m.databaseSha256
    ensures forall k :: 0 <= k < |m.images| && m.images[k].path == name ==> Expected(m)[name] == m.images[k].sha256
  {
    var lines := Lines(m);
    AssignedAt(lines, map[], 0);
    forall k | 0 <= k < |m.images|
      ensures m.images[k].path in Expected(m) && Expected(m)[m.images[k].path] == m.images[k].sha256
    {
      AssignedAt(lines, map[], k + 1);
    }
  }

  /** `next(entry.bytes for entry in images if entry.path == name)`. */
  method ImageNamed(images: seq<ImageEntry>, name: string) returns (k: nat)
    requires exists n :: 0 <= n < |images| && images[n].path == name
    ensures k < |images| && images[k].path == name
  {
    k := 0;
    while images[k].path != name
      invariant k < |images| && forall n :: 0 <= n < k ==> images[n].path != name
      decreases |images| - k
    {
      k := k + 1;
    }
  }

  lemma OnlyImage(m: BackupManifest, k: nat, n: nat)
    requires DistinctPaths(Lines(m)) && k < |m.images| && n < |m.images| && m.images[k].path == m.images[n].path
    ensures k == n
  {
    var lines := Lines(m);
    assert lines[k + 1].path == m.images[k].path && lines[n + 1].path == m.images[n].path;
  }

  method CheckMember(w: World, m: BackupManifest, member: Member) returns (ok: bool, copy: Bytes)
    requires Hashes(w) && DistinctPaths(Lines(m)) && member.name in ArchivePaths(m) && IsData(member.name)
    ensures ok <==> Matches(w, m, member)
    ensures copy == member.data
  {
    hide Assign, Lines, DistinctPaths, Hashes, Sha256;
    ExpectedOf(m, member.name);
    var digest, count;
    digest, count, copy := HashMember(w, member.data);
    var size: nat;
    if member.name == DATABASE_ARCHIVE_PATH {
      size := m.databaseBytes;
    } else {
      var k := ImageNamed(m.images, member.name);
      size := m.images[k].bytes;
      forall n | 0 <= n < |m.images| && m.images[n].path == member.name ensures n == k {
        OnlyImage(m, k, n);
      }
    }
    ok := digest == Expected(m)[member.name] && count == size;
  }

  /** Every data member of an archive with the right names. */
  method CheckMembers(w: World, m: BackupManifest, members: seq<Member>) returns (ok: bool, copy: Bytes)
    requires Hashes(w) && DistinctPaths(Lines(m)) && AllSafe(members) && Names(members) == ArchivePaths(m)
    ensures ok <==> forall k :: 0 <= k < |members| && IsData(members[k].name) ==> Matches(w, m, members[k])
    ensures ok ==> DataOf(members, DATABASE_ARCHIVE_PATH) == Some(copy)
  {
    hide Matches, DistinctPaths, Lines, Hashes, SafeName, IsData, DataOf, ArchivePaths;
    copy := "";
    ghost var at := DatabaseIndex(members, m);
    for k := 0 to |members|
      invariant forall n :: 0 <= n < k && IsData(members[n].name) ==> Matches(w, m, members[n])
      invariant at < k ==> copy == members[at].data
    {
      assert members[k].name in Names(members);
      if IsData(members[k].name) {
        var matches, data := CheckMember(w, m, members[k]);
        if !matches { return false, ""; }
        if members[k].name == DATABASE_ARCHIVE_PATH { copy := data; }
      }
      if k == at { DatabaseIsData(); }
    }
    DataAt(members, at);
    return true, copy;
  }

  lemma DatabaseIsData()
    ensures IsData(DATABASE_ARCHIVE_PATH)
  {
    assert DATABASE_ARCHIVE_PATH[0] == 'd' && MANIFEST_PATH[0] == 'm' && CHECKSUMS_PATH[0] == 'c';
  }

  ghost function DatabaseIndex(members: seq<Member>, m: BackupManifest): (k: nat)
    requires Names(members) == ArchivePaths(m)
    ensures k < |members| && members[k].name == DATABASE_ARCHIVE_PATH
  {
    assert DATABASE_ARCHIVE_PATH in Names(members);
    var k :| 0 <= k < |members| && members[k].name == DATABASE_ARCHIVE_PATH;
    k
  }

  /** Accepts exactly the acceptable archives, and returns their manifest. */
  method VerifyBackup(w: World, members: seq<Member>) returns (r: Result<BackupManifest, Refusal>)
    requires Hashes(w)
    ensures r.Ok? ==> Acceptable(w, members, r.value)
    ensures r.Err? ==> forall m :: !Acceptable(w, members, m)
  {
    hide AllSafe, Describes, Matches, ArchivePaths, Names, DataOf, Hashes, Lines, Assign, DistinctPaths;
    var safe := ValidateTarMembers(members);
    if !safe { return Err(UnsafeMember); }
    var manifestData := MemberByName(members, MANIFEST_PATH);
    if manifestData.None? { return Err(MissingMember); }
    var checksumData := MemberByName(members, CHECKSUMS_PATH);
    if checksumData.None? { return Err(MissingMember); }
    var json := w.loads(manifestData.value);
    if json.None? { return Err(BadManifest); }
    var parsed := ParseManifest(w, json.value);
    if parsed.Err? { return Err(BadManifest); }
    var m := parsed.value;
    assert HasManifest(w, members, m);
    forall m' | Acceptable(w, members, m') ensures m' == m {
      AcceptedManifestIsUnique(w, members, m, m');
    }
    if Names(members) != ArchivePaths(m) { return Err(UnexpectedFiles); }
    var checksums := ParseChecksums(checksumData.value);
    if checksums.Err? || checksums.value != Expected(m) { return Err(BadChecksums); }
    LinesAreDistinct(w, json.value, m);
    var allMatch, copy := CheckMembers(w, m, members);
    if !allMatch { return Err(Mismatch); }
    if !w.valid(copy) || w.revision(copy) != Some(m.schemaRevision) { return Err(Refusal.BadDatabase); }
    return Ok(m);
  }
}
