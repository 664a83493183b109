/** The protocol that keeps catalogue rows and image files together: item
    create, update and delete and the backup, as programs that take turns one
    step at a time under the snapshot lock, with failing commits, failing
    cleanups and crashes anywhere. */
module Images {
  import opened Wrappers

  type ItemId = nat
  type Actor = nat
  type Name = nat
  type Bytes = string

  /** Generated final names, and the temporary files uploads are written to. */
  datatype File = Temp(t: nat) | Final(n: Name)

  datatype Content = Content(data: Bytes, complete: bool)

  /** What an item form does. An update carries the image its row had when the
      request loaded it, before the lock was taken. */
  datatype Job = Create | Update(i: ItemId, prior: Option<Name>, remove: bool)

  type Rows = map<ItemId, Option<Name>>
  type Disk = map<File, Content>

  datatype Phase =
    | Ready
    | Waiting(job: Job, upload: Option<Bytes>)
    | Locked(job: Job, upload: Option<Bytes>)
    | Writing(job: Job, data: Bytes, t: nat)
    | Written(job: Job, t: nat)
    | Linked(job: Job, name: Name, t: nat)
    | Stored(job: Job, image: Option<Name>)
    | Cleaning(unlink: Option<Name>)
    | DeleteWaiting(i: ItemId)
    | DeleteLocked(i: ItemId)
    | DeleteRead(i: ItemId, image: Option<Name>)
    | BackupWaiting
    | BackupLocked
    | Copying(rows: Rows, disk: Disk, copied: map<Name, Bytes>)
    | BackedUp(rows: Rows, disk: Disk, copied: map<Name, Bytes>)
    | BackupFailed

  /** `issued` and `retired` are history: names ever generated, and names once
      referenced by a committed row and no longer. */
  datatype State = State(
    rows: Rows, disk: Disk, lock: Option<Actor>, phases: map<Actor, Phase>, issued: set<Name>, retired: set<Name>)

  datatype Action =
    | SubmitCreate(upload: Option<Bytes>)
    | SubmitUpdate(i: ItemId, upload: Option<Bytes>, remove: bool)
    | SubmitDelete(i: ItemId)
    | SubmitBackup
    | Acquire
    | OpenTemp(t: nat)
    | FinishTemp
    | Link(name: Name)
    | DropTemp
    | UploadFails(dropsTemp: bool)
    | SkipUpload
    | ReadRow
    | Commit(ok: bool, newId: ItemId)
    | Unlink(ok: bool)
    | CopyDatabase
    | CopyImage(name: Name)
    | FinishBackup
    | Crash

  function Referenced(rows: Rows): set<Name> {
    set i | i in rows && rows[i].Some? :: rows[i].value
  }

  function PhaseOf(s: State, a: Actor): Phase {
    if a in s.phases then s.phases[a] else Ready
  }

  predicate HoldsLock(ph: Phase) {
    && !ph.Ready? && !ph.Waiting? && !ph.DeleteWaiting? && !ph.BackupWaiting? && !ph.BackedUp? && !ph.BackupFailed?
  }

  function To(s: State, a: Actor, ph: Phase): State {
    s.(phases := s.phases[a := ph])
  }

  /** Leaves the locked region: the descriptor is closed, the lock is free. */
  function Leave(s: State, a: Actor, ph: Phase): State {
    To(s, a, ph).(lock := None)
  }

  function Rewrite(s: State, rows: Rows): State {
    s.(rows := rows, retired := s.retired + (Referenced(s.rows) - Referenced(rows)))
  }

  /** The image an update writes: the new file, nothing, or what it loaded. */
  function Chosen(job: Job, image: Option<Name>): Option<Name>
    requires job.Update?
  {
    if image.Some? then image else if job.remove then None else job.prior
  }

  function CommitJob(s: State, a: Actor, job: Job, image: Option<Name>, ok: bool, newId: ItemId): State {
    if job.Create? then
      if ok && newId !in s.rows then To(Rewrite(s, s.rows[newId := image]), a, Cleaning(None))
      else To(s, a, Cleaning(image))
    else if ok && job.i in s.rows then
      // Only a changed column is written, compared with the row as loaded.
      var chosen := Chosen(job, image);
      var rows := if chosen == job.prior then s.rows else s.rows[job.i := chosen];
      To(Rewrite(s, rows), a, Cleaning(if chosen == job.prior then None else job.prior))
    else To(s, a, Cleaning(image))
  }

  /** One step of actor `a`; a step that is not its next one changes nothing. */
  function Act(s: State, a: Actor, act: Action): State {
    var ph := PhaseOf(s, a);
    match act
    case SubmitCreate(upload) => if ph.Ready? then To(s, a, Waiting(Create, upload)) else s
    case SubmitUpdate(i, upload, remove) =>
      if ph.Ready? && i in s.rows then To(s, a, Waiting(Update(i, s.rows[i], remove), upload)) else s
    case SubmitDelete(i) => if ph.Ready? && i in s.rows then To(s, a, DeleteWaiting(i)) else s
    case SubmitBackup => if ph.Ready? then To(s, a, BackupWaiting) else s
    case Acquire =>
      if s.lock.Some? then s
      else if ph.Waiting? then To(s, a, Locked(ph.job, ph.upload)).(lock := Some(a))
      else if ph.DeleteWaiting? then To(s, a, DeleteLocked(ph.i)).(lock := Some(a))
      else if ph.BackupWaiting? then To(s, a, BackupLocked).(lock := Some(a))
      else s
    case OpenTemp(t) =>
      if ph.Locked? && ph.upload.Some? && Temp(t) !in s.disk
      then To(s, a, Writing(ph.job, ph.upload.value, t)).(disk := s.disk[Temp(t) := Content([], false)])
      else s
    case FinishTemp =>
      if ph.Writing? then To(s, a, Written(ph.job, ph.t)).(disk := s.disk[Temp(ph.t) := Content(ph.data, true)]) else s
    case Link(name) =>
      if ph.Written? && name !in s.issued && Final(name) !in s.disk && Temp(ph.t) in s.disk
      then To(s, a, Linked(ph.job, name, ph.t))
             .(disk := s.disk[Final(name) := s.disk[Temp(ph.t)]], issued := s.issued + {name})
      else s
    case DropTemp =>
      if ph.Linked? then To(s, a, Stored(ph.job, Some(ph.name))).(disk := s.disk - {Temp(ph.t)}) else s
    case UploadFails(dropsTemp) =>
      if (ph.Locked? && ph.upload.Some?) || ph.Writing? || ph.Written? || ph.Linked? then
        Leave(s, a, Ready).(disk := if dropsTemp && !ph.Locked? then s.disk - {Temp(ph.t)} else s.disk)
      else s
    case SkipUpload => if ph.Locked? && ph.upload.None? then To(s, a, Stored(ph.job, None)) else s
    case ReadRow =>
      if !ph.DeleteLocked? then s
      else if ph.i in s.rows then To(s, a, DeleteRead(ph.i, s.rows[ph.i]))
      else Leave(s, a, Ready)
    case Commit(ok, newId) =>
      if ph.Stored? then CommitJob(s, a, ph.job, ph.image, ok, newId)
      else if !ph.DeleteRead? then s
      else if ok then To(Rewrite(s, s.rows - {ph.i}), a, Cleaning(ph.image))
      else Leave(s, a, Ready)
    case Unlink(ok) =>
      if !ph.Cleaning? then s
      else if ph.unlink.Some? && ok then Leave(s, a, Ready).(disk := s.disk - {Final(ph.unlink.value)})
      else Leave(s, a, Ready)
    case CopyDatabase => if ph.BackupLocked? then To(s, a, Copying(s.rows, s.disk, map[])) else s
    case CopyImage(name) =>
      if !ph.Copying? || name !in Referenced(ph.rows) || name in ph.copied then s
      else if Final(name) in s.disk
      then To(s, a, Copying(ph.rows, ph.disk, ph.copied[name := s.disk[Final(name)].data]))
      else Leave(s, a, BackupFailed)
    case FinishBackup =>
      if ph.Copying? && ph.copied.Keys == Referenced(ph.rows)
      then Leave(s, a, BackedUp(ph.rows, ph.disk, ph.copied)) else s
    case Crash => if HoldsLock(ph) then Leave(s, a, Ready) else To(s, a, Ready)
  }

  // ------------------------------------------------------------------- invariant

  /** Nobody but item `i` refers to the image an update loaded, and if nobody
      does, nobody ever will again. */
  ghost predicate JobSound(s: State, job: Job) {
    job.Update? && job.prior.Some? ==>
      && (job.prior.value in Referenced(s.rows) || job.prior.value in s.retired)
      && (forall j :: j in s.rows && s.rows[j] == job.prior ==> j == job.i)
  }

  /** A linked file no committed row knows yet. */
  ghost predicate Private(s: State, name: Name) {
    name in s.issued && name !in Referenced(s.rows) && name !in s.retired && Final(name) in s.disk
  }

  /** Copies made so far are the bytes at the moment of the database copy. */
  ghost predicate Faithful(rows: Rows, disk: Disk, copied: map<Name, Bytes>) {
    && copied.Keys <= Referenced(rows)
    && (forall n :: n in copied ==> Final(n) in disk && disk[Final(n)].complete && copied[n] == disk[Final(n)].data)
  }

  ghost predicate PhaseSound(s: State, ph: Phase) {
    match ph
    case Waiting(job, _) => JobSound(s, job)
    case Locked(job, _) => JobSound(s, job)
    case Writing(job, _, t) => JobSound(s, job) && Temp(t) in s.disk
    case Written(job, t) => JobSound(s, job) && Temp(t) in s.disk && s.disk[Temp(t)].complete
    case Linked(job, name, t) => JobSound(s, job) && Private(s, name)
    case Stored(job, image) => JobSound(s, job) && (image.Some? ==> Private(s, image.value))
    case Cleaning(unlink) => unlink.Some? ==> unlink.value !in Referenced(s.rows)
    case DeleteRead(i, image) => i in s.rows && s.rows[i] == image
    case Copying(rows, disk, copied) =>
      && rows == s.rows && Faithful(rows, disk, copied)
      && (forall n :: n in Referenced(rows) ==>
            Final(n) in s.disk && Final(n) in disk && disk[Final(n)] == s.disk[Final(n)])
    case BackedUp(rows, disk, copied) => Faithful(rows, disk, copied) && copied.Keys == Referenced(rows)
    case BackupFailed => false
    case _ => true
  }

  /** Every committed reference names a complete file, no two items share one,
      and retired names stay retired. */
  ghost predicate References(s: State) {
    && (forall n :: n in Referenced(s.rows) ==> n in s.issued && Final(n) in s.disk)
    && (forall i, j :: i in s.rows && j in s.rows && i != j && s.rows[i].Some? ==> s.rows[i] != s.rows[j])
    && (forall n :: Final(n) in s.disk ==> n in s.issued && s.disk[Final(n)].complete)
    && s.retired <= s.issued && s.retired !! Referenced(s.rows)
  }

  ghost predicate Sound(s: State) {
    && References(s)
    && (forall a: Actor :: HoldsLock(PhaseOf(s, a)) ==> s.lock == Some(a))
    && (forall a: Actor :: PhaseSound(s, PhaseOf(s, a)))
  }

  /** What rows, retirements and files may do in one step: a name once
      referenced stays referenced or retired, and gains no new holder. */
  ghost predicate Evolves(s: State, s': State) {
    forall p :: p in Referenced(s.rows) || p in s.retired ==>
      && (p in Referenced(s'.rows) || p in s'.retired)
      && (forall j :: j in s'.rows && s'.rows[j] == Some(p) ==> j in s.rows && s.rows[j] == Some(p))
  }

  predicate SameFiles(s: State, s': State) {
    s'.rows == s.rows && s'.disk == s.disk && s'.issued == s.issued && s'.retired == s.retired
  }

  /** Rewriting rows with nothing but a private name keeps every reference. */
  lemma RewriteKeepsReferences(s: State, i: ItemId, rows: Rows, image: Option<Name>)
    requires References(s)
    requires image.Some? ==> Private(s, image.value)
    requires forall j :: j in rows ==> if j == i then rows[j] == image else j in s.rows && s.rows[j] == rows[j]
    ensures References(Rewrite(s, rows)) && Evolves(s, Rewrite(s, rows))
  {
    forall n | n in Referenced(rows) ensures n in Referenced(s.rows) || image == Some(n) {
    }
  }

  lemma CommitKeepsReferences(s: State, a: Actor, job: Job, image: Option<Name>, ok: bool, newId: ItemId)
    requires References(s) && JobSound(s, job) && (image.Some? ==> Private(s, image.value))
    ensures var s' := CommitJob(s, a, job, image, ok, newId);
            && References(s') && Evolves(s, s') && PhaseSound(s', PhaseOf(s', a))
            && s'.lock == s.lock && s'.phases == s.phases[a := PhaseOf(s', a)]
  {
    if job.Create? {
      if ok && newId !in s.rows {
        RewriteKeepsReferences(s, newId, s.rows[newId := image], image);
      }
    } else if ok && job.i in s.rows {
      var chosen := Chosen(job, image);
      if chosen == job.prior {
        assert Referenced(s.rows) - Referenced(s.rows) == {};
        assert s.retired + {} == s.retired;
        assert Rewrite(s, s.rows) == s;
      } else {
        RewriteKeepsReferences(s, job.i, s.rows[job.i := chosen], chosen);
        if job.prior.Some? {
          var p := job.prior.value;
          var rows := s.rows[job.i := chosen];
          assert forall j :: j in rows ==> rows[j] != Some(p);
          assert p !in Referenced(rows);
        }
      }
    }
  }

  lemma DeleteKeepsReferences(s: State, i: ItemId)
    requires References(s) && i in s.rows
    ensures var s' := Rewrite(s, s.rows - {i});
            && References(s') && Evolves(s, s')
            && (s.rows[i].Some? ==> s.rows[i].value !in Referenced(s'.rows))
  {
    RewriteKeepsReferences(s, i, s.rows - {i}, None);
  }

  /** The acting program's own step, when it holds the lock or wants it. */
  lemma OwnStepIsSound(s: State, a: Actor, act: Action)
    requires Sound(s)
    ensures var s' := Act(s, a, act);
            && References(s') && Evolves(s, s') && PhaseSound(s', PhaseOf(s', a))
  {
    var ph := PhaseOf(s, a);
    assert PhaseSound(s, ph);
    match act
    case Commit(ok, newId) =>
      if ph.Stored? {
        CommitKeepsReferences(s, a, ph.job, ph.image, ok, newId);
      } else if ph.DeleteRead? {
        DeleteKeepsReferences(s, ph.i);
      }
    case OpenTemp(_) => FileStepIsSound(s, a, act);
    case FinishTemp => FileStepIsSound(s, a, act);
    case Link(_) => FileStepIsSound(s, a, act);
    case DropTemp => FileStepIsSound(s, a, act);
    case UploadFails(_) => FileStepIsSound(s, a, act);
    case Unlink(_) => FileStepIsSound(s, a, act);
    case _ => QuietStepIsSound(s, a, act);
  }

  lemma FileStepIsSound(s: State, a: Actor, act: Action)
    requires References(s) && PhaseSound(s, PhaseOf(s, a))
    requires act.OpenTemp? || act.FinishTemp? || act.Link? || act.DropTemp? || act.UploadFails? || act.Unlink?
    ensures var s' := Act(s, a, act);
            && References(s') && Evolves(s, s') && PhaseSound(s', PhaseOf(s', a))
  {
    hide Act, References, PhaseSound, Evolves;
    if act.Link? || act.Unlink? {
      FinalFileStepIsSound(s, a, act);
    } else {
      TempFileStepIsSound(s, a, act);
    }
  }

  lemma FinalFileStepIsSound(s: State, a: Actor, act: Action)
    requires References(s) && PhaseSound(s, PhaseOf(s, a)) && (act.Link? || act.Unlink?)
    ensures var s' := Act(s, a, act);
            && References(s') && Evolves(s, s') && PhaseSound(s', PhaseOf(s', a))
  {
    hide CommitJob, Rewrite, Faithful, Referenced;
  }

  lemma TempFileStepIsSound(s: State, a: Actor, act: Action)
    requires References(s) && PhaseSound(s, PhaseOf(s, a))
    requires act.OpenTemp? || act.FinishTemp? || act.DropTemp? || act.UploadFails?
    ensures var s' := Act(s, a, act);
            && References(s') && Evolves(s, s') && PhaseSound(s', PhaseOf(s', a))
  {
    hide CommitJob, Rewrite, Faithful, Referenced;
  }

  lemma SameFilesKeepReferences(s: State, s': State)
    requires References(s) && SameFiles(s, s')
    ensures References(s') && Evolves(s, s')
  {
  }

  lemma QuietStepIsSound(s: State, a: Actor, act: Action)
    requires References(s) && PhaseSound(s, PhaseOf(s, a))
    requires SameFiles(s, Act(s, a, act)) && !act.Commit?
    ensures var s' := Act(s, a, act);
            && References(s') && Evolves(s, s') && PhaseSound(s', PhaseOf(s', a))
  {
    SameFilesKeepReferences(s, Act(s, a, act));
    hide CommitJob, Rewrite, Evolves;
    if act.SubmitUpdate? || act.CopyDatabase? || act.CopyImage? || act.ReadRow? || act.FinishBackup? {
      ReadingStepIsSound(s, a, act);
    } else {
      hide Faithful, References, Referenced;
    }
  }

  /** The steps that copy from the rows or the disk into a program. */
  lemma ReadingStepIsSound(s: State, a: Actor, act: Action)
    requires References(s) && PhaseSound(s, PhaseOf(s, a))
    requires act.SubmitUpdate? || act.CopyDatabase? || act.CopyImage? || act.ReadRow? || act.FinishBackup?
    ensures PhaseSound(Act(s, a, act), PhaseOf(Act(s, a, act), a))
  {
    hide CommitJob, Rewrite;
  }

  lemma OtherPhaseStaysSound(s: State, s': State, ph: Phase)
    requires Evolves(s, s') && PhaseSound(s, ph) && !HoldsLock(ph)
    ensures PhaseSound(s', ph)
  {
  }

  lemma SamePhaseStaysSound(s: State, s': State, ph: Phase)
    requires SameFiles(s, s') && PhaseSound(s, ph)
    ensures PhaseSound(s', ph)
  {
  }

  /** Only the holder of the lock touches rows or files. */
  lemma OnlyHolderChangesFiles(s: State, a: Actor, act: Action)
    requires !HoldsLock(PhaseOf(s, a))
    ensures SameFiles(s, Act(s, a, act))
  {
  }

  lemma LockDiscipline(s: State, a: Actor, act: Action)
    requires Sound(s)
    ensures var s' := Act(s, a, act);
            && (forall b: Actor :: b != a ==> PhaseOf(s', b) == PhaseOf(s, b))
            && (forall b: Actor :: HoldsLock(PhaseOf(s', b)) ==> s'.lock == Some(b))
  {
    hide References, PhaseSound, Referenced;
    OwnLock(s, a, act);
    forall b: Actor | b != a ensures PhaseOf(Act(s, a, act), b) == PhaseOf(s, b) {
      OthersKeepPhase(s, a, act, b);
    }
    hide Act, PhaseOf;
  }

  lemma OthersKeepPhase(s: State, a: Actor, act: Action, b: Actor)
    requires b != a
    ensures PhaseOf(Act(s, a, act), b) == PhaseOf(s, b)
  {
  }

  /** A step frees the lock only from inside, and takes it only when free. */
  lemma OwnLock(s: State, a: Actor, act: Action)
    requires HoldsLock(PhaseOf(s, a)) ==> s.lock == Some(a)
    ensures var s' := Act(s, a, act);
            && (HoldsLock(PhaseOf(s', a)) ==> s'.lock == Some(a))
            && (s'.lock != s.lock ==> s.lock == None || s.lock == Some(a))
  {
  }

  /** Every step of every program keeps the whole invariant. */
  lemma StepIsSound(s: State, a: Actor, act: Action)
    requires Sound(s)
    ensures Sound(Act(s, a, act)) && Evolves(s, Act(s, a, act))
  {
    hide Act, References, PhaseSound, Evolves;
    var s' := Act(s, a, act);
    OwnStepIsSound(s, a, act);
    LockDiscipline(s, a, act);
    forall b: Actor ensures PhaseSound(s', PhaseOf(s', b)) {
      if b != a {
        assert PhaseSound(s, PhaseOf(s, b));
        if HoldsLock(PhaseOf(s, b)) {
          OnlyHolderChangesFiles(s, a, act);
          SamePhaseStaysSound(s, s', PhaseOf(s, b));
        } else {
          OtherPhaseStaysSound(s, s', PhaseOf(s, b));
        }
      }
    }
  }

  // ------------------------------------------------------------------------- runs

  datatype Turn = Turn(a: Actor, act: Action)

  function Run(s: State, turns: seq<Turn>): State {
    if turns == [] then s else Act(Run(s, turns[..|turns| - 1]), turns[|turns| - 1].a, turns[|turns| - 1].act)
  }

  /** A catalogue whose references are in order, and no program under way. */
  ghost predicate Initial(s: State) {
    References(s) && s.lock == None && s.phases == map[]
  }

  lemma {:induction false} RunIsSound(s: State, turns: seq<Turn>)
    requires Initial(s)
    ensures Sound(Run(s, turns))
  {
    if turns != [] {
      RunIsSound(s, turns[..|turns| - 1]);
      StepIsSound(Run(s, turns[..|turns| - 1]), turns[|turns| - 1].a, turns[|turns| - 1].act);
    }
  }

  /** At every moment of every interleaving each committed image is a complete
      file, and no two items share one. */
  lemma ReferencedImagesExist(s: State, turns: seq<Turn>)
    requires Initial(s)
    ensures var now := Run(s, turns);
            forall i :: i in now.rows && now.rows[i].Some? ==>
              && Final(now.rows[i].value) in now.disk && now.disk[Final(now.rows[i].value)].complete
              && (forall j :: j in now.rows && j != i ==> now.rows[j] != now.rows[i])
  {
    RunIsSound(s, turns);
    var now := Run(s, turns);
    assert forall i :: i in now.rows && now.rows[i].Some? ==> now.rows[i].value in Referenced(now.rows);
  }

  /** A name that has been referenced and is no longer is never referenced
      again, although an update unlinks a name it read before taking the lock. */
  lemma {:induction false} RetiredNamesStayRetired(s: State, turns: seq<Turn>, early: nat, middle: nat, name: Name)
    requires Initial(s) && early <= middle <= |turns|
    requires name in Referenced(Run(s, turns[..early]).rows)
    requires name !in Referenced(Run(s, turns[..middle]).rows)
    ensures name !in Referenced(Run(s, turns).rows) && name in Run(s, turns).retired
  {
    assert turns[..|turns|] == turns;
    if middle < |turns| {
      var init := turns[..|turns| - 1];
      assert init[..early] == turns[..early] && init[..middle] == turns[..middle];
      RetiredNamesStayRetired(s, init, early, middle, name);
      RunIsSound(s, init);
      RunIsSound(s, turns);
      RetirementOnlyGrows(Run(s, init), turns[|turns| - 1].a, turns[|turns| - 1].act);
    } else {
      ReferencedOrRetired(s, turns, early, name);
    }
  }

  lemma RetirementOnlyGrows(s: State, a: Actor, act: Action)
    ensures s.retired <= Act(s, a, act).retired
  {
  }

  lemma {:induction false} ReferencedOrRetired(s: State, turns: seq<Turn>, early: nat, name: Name)
    requires Initial(s) && early <= |turns| && name in Referenced(Run(s, turns[..early]).rows)
    ensures name in Referenced(Run(s, turns).rows) || name in Run(s, turns).retired
  {
    if early < |turns| {
      var init := turns[..|turns| - 1];
      assert init[..early] == turns[..early];
      ReferencedOrRetired(s, init, early, name);
      RunIsSound(s, init);
      StepIsSound(Run(s, init), turns[|turns| - 1].a, turns[|turns| - 1].act);
    } else {
      assert turns[..early] == turns;
    }
  }

  // ------------------------------------------------------- what the programs do

  /** Every row but one is as it was. */
  predicate OtherRowsStay(s: State, s': State, i: ItemId) {
    && (forall j :: j in s'.rows && j != i ==> j in s.rows && s'.rows[j] == s.rows[j])
    && (forall j :: j in s.rows && j != i ==> j in s'.rows)
  }

  predicate LetGo(s': State, a: Actor) {
    s'.lock == None && PhaseOf(s', a) == Ready
  }

  /** A create that commits adds one row with the uploaded image, or none; one
      that does not changes no row and cleans its upload up. */
  lemma CommittedCreate(s: State, a: Actor, image: Option<Name>, ok: bool, i: ItemId)
    requires PhaseOf(s, a) == Stored(Create, image)
    ensures var s' := Act(s, a, Commit(ok, i));
            && s'.disk == s.disk && s'.lock == s.lock
            && if ok && i !in s.rows
               then && i in s'.rows && s'.rows[i] == image && OtherRowsStay(s, s', i)
                    && PhaseOf(s', a) == Cleaning(None)
               else s'.rows == s.rows && PhaseOf(s', a) == Cleaning(image)
  {
  }

  /** An update that commits leaves the upload in the row if there is one; none
      if the form removes the image that was loaded; otherwise what the row
      held. It cleans up the image it took out of the row; a failed one changes
      no row and cleans its upload up. */
  lemma CommittedUpdate(
    s: State, a: Actor, i: ItemId, prior: Option<Name>, remove: bool, image: Option<Name>, ok: bool, newId: ItemId)
    requires Sound(s) && PhaseOf(s, a) == Stored(Update(i, prior, remove), image)
    ensures var s' := Act(s, a, Commit(ok, newId));
            && s'.disk == s.disk && s'.lock == s.lock
            && if ok && i in s.rows
               then && i in s'.rows && OtherRowsStay(s, s', i)
                    && s'.rows[i] == (if image.Some? then image
                                      else if remove && prior.Some? then None else s.rows[i])
                    && PhaseOf(s', a) == Cleaning(if image.Some? || remove then prior else None)
               else s'.rows == s.rows && PhaseOf(s', a) == Cleaning(image)
  {
    assert PhaseSound(s, PhaseOf(s, a));
    hide Act, Sound, PhaseSound;
    UploadIsNotPrior(s, i, prior, remove, image);
    CommitStep(s, a, Commit(ok, newId), Update(i, prior, remove), image, ok, newId);
  }

  lemma UploadIsNotPrior(s: State, i: ItemId, prior: Option<Name>, remove: bool, image: Option<Name>)
    requires PhaseSound(s, Stored(Update(i, prior, remove), image))
    ensures image.Some? ==> image != prior
  {
  }

  lemma CommitStep(s: State, a: Actor, act: Action, job: Job, image: Option<Name>, ok: bool, newId: ItemId)
    requires PhaseOf(s, a) == Stored(job, image) && act == Commit(ok, newId)
    ensures Act(s, a, act) == CommitJob(s, a, job, image, ok, newId)
  {
  }

  /** If the row still holds what the update loaded, a removal always empties it
      and cleans up exactly the image it held. */
  lemma CommittedRemoval(s: State, a: Actor, i: ItemId, prior: Option<Name>, newId: ItemId)
    requires Sound(s) && PhaseOf(s, a) == Stored(Update(i, prior, true), None)
    requires i in s.rows && s.rows[i] == prior
    ensures var s' := Act(s, a, Commit(true, newId));
            i in s'.rows && s'.rows[i] == None && OtherRowsStay(s, s', i) && PhaseOf(s', a) == Cleaning(s.rows[i])
  {
    CommittedUpdate(s, a, i, prior, true, None, true, newId);
  }

  /** A deletion that commits removes exactly its row and cleans up its image. */
  lemma CommittedDelete(s: State, a: Actor, i: ItemId, image: Option<Name>, ok: bool, newId: ItemId)
    requires Sound(s) && PhaseOf(s, a) == DeleteRead(i, image)
    ensures var s' := Act(s, a, Commit(ok, newId));
            && s'.disk == s.disk
            && if ok
               then && i in s.rows && i !in s'.rows && OtherRowsStay(s, s', i)
                    && PhaseOf(s', a) == Cleaning(s.rows[i]) && s'.lock == s.lock
               else s'.rows == s.rows && LetGo(s', a)
  {
    assert PhaseSound(s, PhaseOf(s, a));
  }

  /** The cleanup removes the one file it is for, or fails and leaves it, and
      gives the lock back. */
  lemma CleanupMeans(s: State, a: Actor, unlink: Option<Name>, ok: bool)
    requires PhaseOf(s, a) == Cleaning(unlink)
    ensures var s' := Act(s, a, Unlink(ok));
            && s'.rows == s.rows && LetGo(s', a)
            && (forall f :: f in s'.disk <==> f in s.disk && !(ok && unlink.Some? && f == Final(unlink.value)))
            && (forall f :: f in s'.disk ==> s'.disk[f] == s.disk[f])
  {
  }

  lemma CleanedDisk(s: State, a: Actor, unlink: Option<Name>)
    requires PhaseOf(s, a) == Cleaning(unlink)
    ensures Act(s, a, Unlink(true)).disk == s.disk - (if unlink.Some? then {Final(unlink.value)} else {})
  {
  }

  lemma TempIsWritten(s: State, a: Actor, job: Job, data: Bytes, t: nat)
    requires PhaseOf(s, a) == Locked(job, Some(data)) && Temp(t) !in s.disk
    ensures var s' := Act(Act(s, a, OpenTemp(t)), a, FinishTemp);
            && PhaseOf(s', a) == Written(job, t) && s'.rows == s.rows && s'.lock == s.lock
            && s'.disk == s.disk[Temp(t) := Content(data, true)] && s'.issued == s.issued
  {
  }

  lemma TempIsLinked(s: State, a: Actor, job: Job, data: Bytes, t: nat, name: Name)
    requires PhaseOf(s, a) == Written(job, t) && Temp(t) in s.disk && s.disk[Temp(t)] == Content(data, true)
    requires name !in s.issued && Final(name) !in s.disk
    ensures var s' := Act(Act(s, a, Link(name)), a, DropTemp);
            && PhaseOf(s', a) == Stored(job, Some(name)) && s'.rows == s.rows && s'.lock == s.lock
            && s'.disk == s.disk[Final(name) := Content(data, true)] - {Temp(t)}
            && s'.issued == s.issued + {name}
  {
  }

  /** The upload becomes a complete file under the new name, and no temporary
      file stays. */
  lemma UploadMeans(s: State, a: Actor, job: Job, data: Bytes, t: nat, name: Name)
    requires PhaseOf(s, a) == Locked(job, Some(data)) && Temp(t) !in s.disk
    requires name !in s.issued && Final(name) !in s.disk
    ensures var s' := Solo(s, a, [OpenTemp(t), FinishTemp, Link(name), DropTemp]);
            && PhaseOf(s', a) == Stored(job, Some(name)) && s'.rows == s.rows && s'.lock == s.lock
            && s'.disk == s.disk[Final(name) := Content(data, true)]
            && s'.issued == s.issued + {name}
  {
    hide Act, Solo;
    TempIsWritten(s, a, job, data, t);
    TempIsLinked(Act(Act(s, a, OpenTemp(t)), a, FinishTemp), a, job, data, t, name);
    SoloFour(s, a, OpenTemp(t), FinishTemp, Link(name), DropTemp);
    assert s.disk[Temp(t) := Content(data, true)][Final(name) := Content(data, true)] - {Temp(t)} ==
           s.disk[Final(name) := Content(data, true)];
  }

  /** A failing upload or a crash changes no row and no final file, and gives the
      lock back if it was held. */
  lemma FailureMeans(s: State, a: Actor, act: Action)
    requires Sound(s) && (act.UploadFails? || act.Crash?)
    ensures var s' := Act(s, a, act);
            && s'.rows == s.rows
            && (forall n :: Final(n) in s'.disk <==> Final(n) in s.disk)
            && (forall f :: f in s'.disk ==> f in s.disk && s'.disk[f] == s.disk[f])
            && (act.Crash? ==> s'.disk == s.disk && PhaseOf(s', a) == Ready)
            && (s.lock == Some(a) && PhaseOf(s', a) == Ready && HoldsLock(PhaseOf(s, a)) ==> s'.lock == None)
  {
  }

  /** A program's steps with nobody in between. */
  function Solo(s: State, a: Actor, acts: seq<Action>): State {
    if acts == [] then s else Act(Solo(s, a, acts[..|acts| - 1]), a, acts[|acts| - 1])
  }

  lemma SoloNext(s: State, a: Actor, acts: seq<Action>, act: Action)
    ensures Solo(s, a, acts + [act]) == Act(Solo(s, a, acts), a, act)
  {
    assert (acts + [act])[..|acts|] == acts;
  }

  lemma SoloFour(s: State, a: Actor, a1: Action, a2: Action, a3: Action, a4: Action)
    ensures Solo(s, a, [a1, a2, a3, a4]) == Act(Act(Act(Act(s, a, a1), a, a2), a, a3), a, a4)
  {
    hide Act, Solo;
    SoloTwo(s, a, a1, a2);
    SoloNext(s, a, [a1, a2], a3);
    SoloNext(s, a, [a1, a2, a3], a4);
    assert [a1, a2] + [a3] == [a1, a2, a3] && [a1, a2, a3] + [a4] == [a1, a2, a3, a4];
  }

  lemma {:induction false} SoloConcat(s: State, a: Actor, first: seq<Action>, second: seq<Action>)
    ensures Solo(s, a, first + second) == Solo(Solo(s, a, first), a, second)
  {
    if second == [] {
      assert first + second == first;
    } else {
      var init := second[..|second| - 1];
      assert (first + second)[..|first + second| - 1] == first + init;
      SoloConcat(s, a, first, init);
    }
  }

  lemma {:induction false} SoloIsSound(s: State, a: Actor, acts: seq<Action>)
    requires Sound(s)
    ensures Sound(Solo(s, a, acts))
  {
    if acts != [] {
      SoloIsSound(s, a, acts[..|acts| - 1]);
      StepIsSound(Solo(s, a, acts[..|acts| - 1]), a, acts[|acts| - 1]);
    }
  }

  lemma SoloTwo(s: State, a: Actor, a1: Action, a2: Action)
    ensures Solo(s, a, [a1, a2]) == Act(Act(s, a, a1), a, a2)
  {
    SoloNext(s, a, [], a1);
    SoloNext(s, a, [a1], a2);
    assert [] + [a1] == [a1] && [a1] + [a2] == [a1, a2];
  }

  function UploadSteps(upload: Option<Bytes>, t: nat, name: Name): seq<Action> {
    if upload.Some? then [OpenTemp(t), FinishTemp, Link(name), DropTemp] else [SkipUpload]
  }

  function Uploaded(upload: Option<Bytes>, name: Name): Option<Name> {
    if upload.Some? then Some(name) else None
  }

  function WithUpload(disk: Disk, upload: Option<Bytes>, name: Name): Disk {
    if upload.Some? then disk[Final(name) := Content(upload.value, true)] else disk
  }

  lemma UploadOrSkip(s: State, a: Actor, job: Job, upload: Option<Bytes>, t: nat, name: Name)
    requires PhaseOf(s, a) == Locked(job, upload) && Temp(t) !in s.disk
    requires name !in s.issued && Final(name) !in s.disk
    ensures var s' := Solo(s, a, UploadSteps(upload, t, name));
            && PhaseOf(s', a) == Stored(job, Uploaded(upload, name)) && s'.rows == s.rows && s'.lock == s.lock
            && s'.disk == WithUpload(s.disk, upload, name)
  {
    if upload.Some? {
      UploadMeans(s, a, job, upload.value, t, name);
    } else {
      SoloNext(s, a, [], SkipUpload);
      assert [] + [SkipUpload] == [SkipUpload];
    }
  }

  function FormSteps(submit: Action, upload: Option<Bytes>, t: nat, name: Name, newId: ItemId): seq<Action> {
    [submit, Acquire] + UploadSteps(upload, t, name) + [Commit(true, newId), Unlink(true)]
  }

  /** The request up to its commit. */
  lemma FormReachesCommit(
    s: State, a: Actor, submit: Action, job: Job, upload: Option<Bytes>, t: nat, name: Name, newId: ItemId)
    requires s.lock == None && PhaseOf(Act(s, a, submit), a) == Waiting(job, upload)
    requires Act(s, a, submit) == To(s, a, Waiting(job, upload))
    requires Temp(t) !in s.disk && name !in s.issued && Final(name) !in s.disk
    ensures var stored := Solo(s, a, [submit, Acquire] + UploadSteps(upload, t, name));
            && PhaseOf(stored, a) == Stored(job, Uploaded(upload, name)) && stored.rows == s.rows
            && stored.disk == WithUpload(s.disk, upload, name)
            && Solo(s, a, FormSteps(submit, upload, t, name, newId)) ==
               Act(Act(stored, a, Commit(true, newId)), a, Unlink(true))
  {
    var locked := Act(Act(s, a, submit), a, Acquire);
    assert PhaseOf(locked, a) == Locked(job, upload) && locked.rows == s.rows && locked.disk == s.disk;
    assert locked.issued == s.issued;
    hide Act, UploadSteps, WithUpload;
    SoloTwo(s, a, submit, Acquire);
    UploadOrSkip(locked, a, job, upload, t, name);
    SoloConcat(s, a, [submit, Acquire], UploadSteps(upload, t, name));
    var stored := Solo(s, a, [submit, Acquire] + UploadSteps(upload, t, name));
    SoloConcat(s, a, [submit, Acquire] + UploadSteps(upload, t, name), [Commit(true, newId), Unlink(true)]);
    SoloTwo(stored, a, Commit(true, newId), Unlink(true));
  }

  /** An undisturbed create, with or without an upload: the new row has the
      uploaded bytes under a complete file, and nothing else has changed. */
  lemma WholeCreate(s: State, a: Actor, upload: Option<Bytes>, t: nat, name: Name, i: ItemId)
    requires s.lock == None && PhaseOf(s, a) == Ready && i !in s.rows
    requires Temp(t) !in s.disk && name !in s.issued && Final(name) !in s.disk
    ensures var s' := Solo(s, a, FormSteps(SubmitCreate(upload), upload, t, name, i));
            && i in s'.rows && s'.rows[i] == Uploaded(upload, name) && OtherRowsStay(s, s', i)
            && s'.disk == WithUpload(s.disk, upload, name) && LetGo(s', a)
  {
    FormReachesCommit(s, a, SubmitCreate(upload), Create, upload, t, name, i);
    hide Act, UploadSteps, WithUpload;
    var stored := Solo(s, a, [SubmitCreate(upload), Acquire] + UploadSteps(upload, t, name));
    CommittedCreate(stored, a, Uploaded(upload, name), true, i);
    CleanupMeans(Act(stored, a, Commit(true, i)), a, None, true);
  }

  /** An undisturbed update: the row has the upload, or nothing if the image is
      removed, or what it had; and of the files only a replaced or removed image
      is gone. */
  lemma WholeUpdate(
    s: State, a: Actor, i: ItemId, upload: Option<Bytes>, remove: bool, t: nat, name: Name, newId: ItemId)
    requires Sound(s) && s.lock == None && PhaseOf(s, a) == Ready && i in s.rows
    requires Temp(t) !in s.disk && name !in s.issued && Final(name) !in s.disk
    ensures var s' := Solo(s, a, FormSteps(SubmitUpdate(i, upload, remove), upload, t, name, newId));
            && i in s'.rows && OtherRowsStay(s, s', i) && LetGo(s', a)
            && s'.rows[i] == (if upload.Some? then Some(name) else if remove then None else s.rows[i])
            && s'.disk == WithUpload(s.disk, upload, name) -
                          (if (upload.Some? || remove) && s.rows[i].Some? then {Final(s.rows[i].value)} else {})
  {
    var submit, job, image := SubmitUpdate(i, upload, remove), Update(i, s.rows[i], remove), Uploaded(upload, name);
    FormReachesCommit(s, a, submit, job, upload, t, name, newId);
    hide Act, UploadSteps, WithUpload, Sound, Solo, PhaseOf, OtherRowsStay, LetGo;
    var stored := Solo(s, a, [submit, Acquire] + UploadSteps(upload, t, name));
    SoloIsSound(s, a, [submit, Acquire] + UploadSteps(upload, t, name));
    StoredUpdateEnds(stored, a, i, remove, image, newId);
    SameOtherRows(s, stored, Act(Act(stored, a, Commit(true, newId)), a, Unlink(true)), i);
  }

  lemma SameOtherRows(s: State, same: State, s': State, i: ItemId)
    requires same.rows == s.rows && OtherRowsStay(same, s', i)
    ensures OtherRowsStay(s, s', i)
  {
  }

  /** The commit and the cleanup of an update whose row is as it was loaded. */
  lemma StoredUpdateEnds(s: State, a: Actor, i: ItemId, remove: bool, image: Option<Name>, newId: ItemId)
    requires Sound(s) && i in s.rows && PhaseOf(s, a) == Stored(Update(i, s.rows[i], remove), image)
    ensures var s' := Act(Act(s, a, Commit(true, newId)), a, Unlink(true));
            && i in s'.rows && OtherRowsStay(s, s', i) && LetGo(s', a)
            && s'.rows[i] == (if image.Some? then image else if remove then None else s.rows[i])
            && s'.disk == s.disk -
                          (if (image.Some? || remove) && s.rows[i].Some? then {Final(s.rows[i].value)} else {})
  {
    hide Act, Sound, PhaseOf;
    CommittedUpdate(s, a, i, s.rows[i], remove, image, true, newId);
    var unlink := if image.Some? || remove then s.rows[i] else None;
    CleanupMeans(Act(s, a, Commit(true, newId)), a, unlink, true);
    CleanedDisk(Act(s, a, Commit(true, newId)), a, unlink);
  }

  /** An undisturbed deletion: the row and its image are gone, nothing else. */
  lemma WholeDelete(s: State, a: Actor, i: ItemId, newId: ItemId)
    requires Sound(s) && s.lock == None && PhaseOf(s, a) == Ready && i in s.rows
    ensures var s' := Solo(s, a, [SubmitDelete(i), Acquire] + [ReadRow] + [Commit(true, newId), Unlink(true)]);
            && i !in s'.rows && OtherRowsStay(s, s', i) && LetGo(s', a)
            && s'.disk == s.disk - (if s.rows[i].Some? then {Final(s.rows[i].value)} else {})
  {
    var steps := [SubmitDelete(i), Acquire] + [ReadRow];
    DeletionReachesCommit(s, a, i);
    hide Act, Sound, Solo, PhaseOf;
    var seen := Solo(s, a, steps);
    SoloIsSound(s, a, steps);
    SoloConcat(s, a, steps, [Commit(true, newId), Unlink(true)]);
    SoloTwo(seen, a, Commit(true, newId), Unlink(true));
    CommittedDelete(seen, a, i, s.rows[i], true, newId);
    CleanupMeans(Act(seen, a, Commit(true, newId)), a, s.rows[i], true);
    CleanedDisk(Act(seen, a, Commit(true, newId)), a, s.rows[i]);
  }

  lemma DeletionReachesCommit(s: State, a: Actor, i: ItemId)
    requires s.lock == None && PhaseOf(s, a) == Ready && i in s.rows
    ensures var seen := Solo(s, a, [SubmitDelete(i), Acquire] + [ReadRow]);
            PhaseOf(seen, a) == DeleteRead(i, s.rows[i]) && seen.rows == s.rows && seen.disk == s.disk
  {
    var seen := Act(Act(Act(s, a, SubmitDelete(i)), a, Acquire), a, ReadRow);
    assert PhaseOf(seen, a) == DeleteRead(i, s.rows[i]) && seen.rows == s.rows && seen.disk == s.disk;
    hide Act;
    SoloTwo(s, a, SubmitDelete(i), Acquire);
    SoloNext(s, a, [SubmitDelete(i), Acquire], ReadRow);
  }

  function CopySteps(names: seq<Name>): seq<Action> {
    seq(|names|, k requires 0 <= k < |names| => CopyImage(names[k]))
  }

  function Copies(names: seq<Name>, disk: Disk): map<Name, Bytes>
    requires forall n :: n in names ==> Final(n) in disk
  {
    map n | n in names :: disk[Final(n)].data
  }

  lemma OneMoreCopy(init: seq<Name>, last: Name, disk: Disk)
    requires (forall n :: n in init ==> Final(n) in disk) && Final(last) in disk && last !in init
    ensures last !in Copies(init, disk)
    ensures Copies(init + [last], disk) == Copies(init, disk)[last := disk[Final(last)].data]
  {
  }

  /** Distinct referenced images, all there. */
  ghost predicate Copyable(rows: Rows, disk: Disk, names: seq<Name>) {
    && (forall j, k :: 0 <= j < k < |names| ==> names[j] != names[k])
    && (forall n :: n in names ==> n in Referenced(rows) && Final(n) in disk)
  }

  lemma CopyableButLast(rows: Rows, disk: Disk, init: seq<Name>, last: Name)
    requires Copyable(rows, disk, init + [last])
    ensures Copyable(rows, disk, init) && last !in init && last in Referenced(rows) && Final(last) in disk
    ensures CopySteps(init + [last]) == CopySteps(init) + [CopyImage(last)]
  {
    var names := init + [last];
    assert names[|init|] == last && forall k :: 0 <= k < |init| ==> names[k] == init[k];
  }

  lemma NothingCopied(s: State, a: Actor)
    ensures Solo(s, a, CopySteps([])) == s && Copies([], s.disk) == map[]
  {
  }

  lemma {:induction false} CopiesEach(s: State, a: Actor, rows: Rows, disk: Disk, names: seq<Name>)
    requires PhaseOf(s, a) == Copying(rows, disk, map[]) && Copyable(rows, s.disk, names)
    ensures var s' := Solo(s, a, CopySteps(names));
            && s'.rows == s.rows && s'.disk == s.disk && s'.lock == s.lock
            && PhaseOf(s', a) == Copying(rows, disk, Copies(names, s.disk))
  {
    hide Act, PhaseOf, Referenced, Copies, Solo, CopySteps;
    if names == [] {
      NothingCopied(s, a);
    } else {
      var init, last := names[..|names| - 1], names[|names| - 1];
      assert names == init + [last];
      CopyableButLast(rows, s.disk, init, last);
      hide Copyable;
      CopiesEach(s, a, rows, disk, init);
      SoloNext(s, a, CopySteps(init), CopyImage(last));
      OneMoreCopy(init, last, s.disk);
      CopyOne(Solo(s, a, CopySteps(init)), a, rows, disk, Copies(init, s.disk), last);
    }
  }

  lemma CopyOne(s: State, a: Actor, rows: Rows, disk: Disk, copied: map<Name, Bytes>, name: Name)
    requires PhaseOf(s, a) == Copying(rows, disk, copied) && name in Referenced(rows) && name !in copied
    requires Final(name) in s.disk
    ensures var s' := Act(s, a, CopyImage(name));
            && s'.rows == s.rows && s'.disk == s.disk && s'.lock == s.lock
            && PhaseOf(s', a) == Copying(rows, disk, copied[name := s.disk[Final(name)].data])
  {
  }

  // ---------------------------------------------------------------------- backups

  /** The database copy of a backup was taken from one state of the run. */
  ghost predicate TakenFrom(s: State, turns: seq<Turn>, rows: Rows, disk: Disk) {
    exists k: nat :: k <= |turns| && Run(s, turns[..k]).rows == rows && Run(s, turns[..k]).disk == disk
  }

  lemma {:induction false} CopiesComeFromTheRun(s: State, turns: seq<Turn>, a: Actor)
    requires Initial(s)
    ensures var ph := PhaseOf(Run(s, turns), a);
            ph.Copying? || ph.BackedUp? ==> TakenFrom(s, turns, ph.rows, ph.disk)
  {
    if turns != [] {
      var init := turns[..|turns| - 1];
      var before, last := Run(s, init), turns[|turns| - 1];
      CopiesComeFromTheRun(s, init, a);
      var was, ph := PhaseOf(before, a), PhaseOf(Run(s, turns), a);
      if ph.Copying? || ph.BackedUp? {
        SourceOfCopy(before, last.a, last.act, a);
        var k: nat :| k <= |init| && Run(s, init[..k]).rows == ph.rows && Run(s, init[..k]).disk == ph.disk by {
          if !was.Copying? && !was.BackedUp? {
            assert init[..|init|] == init;
          }
        }
        assert init[..k] == turns[..k];
      }
    }
  }

  lemma SourceOfCopy(s: State, b: Actor, act: Action, a: Actor)
    requires var ph := PhaseOf(Act(s, b, act), a); ph.Copying? || ph.BackedUp?
    ensures var was, ph := PhaseOf(s, a), PhaseOf(Act(s, b, act), a);
            if was.Copying? || was.BackedUp? then was.rows == ph.rows && was.disk == ph.disk
            else s.rows == ph.rows && s.disk == ph.disk
  {
  }

  /** What a finished backup holds is one moment of the run: exactly the images
      its database copy references, with the bytes they had then; and no backup
      ever meets a missing image. */
  lemma BackupIsCoherent(s: State, turns: seq<Turn>, a: Actor) returns (k: nat)
    requires Initial(s)
    ensures !PhaseOf(Run(s, turns), a).BackupFailed?
    ensures var ph := PhaseOf(Run(s, turns), a);
            ph.BackedUp? ==>
              && k <= |turns| && Run(s, turns[..k]).rows == ph.rows && Run(s, turns[..k]).disk == ph.disk
              && ph.copied.Keys == Referenced(ph.rows)
              && (forall n :: n in ph.copied ==>
                    && Final(n) in Run(s, turns[..k]).disk
                    && Run(s, turns[..k]).disk[Final(n)] == Content(ph.copied[n], true))
  {
    RunIsSound(s, turns);
    var ph := PhaseOf(Run(s, turns), a);
    assert PhaseSound(Run(s, turns), ph);
    k := 0;
    if ph.BackedUp? {
      CopiesComeFromTheRun(s, turns, a);
      k :| k <= |turns| && Run(s, turns[..k]).rows == ph.rows && Run(s, turns[..k]).disk == ph.disk;
    }
  }

  /** An undisturbed backup finishes, with exactly the images of the rows and
      their bytes, and leaves rows and files alone. */
  lemma WholeBackup(s: State, a: Actor, names: seq<Name>)
    requires Sound(s) && s.lock == None && PhaseOf(s, a) == Ready
    requires forall j, k :: 0 <= j < k < |names| ==> names[j] != names[k]
    requires forall n :: n in names <==> n in Referenced(s.rows)
    ensures var s' := Solo(s, a, [SubmitBackup, Acquire] + [CopyDatabase] + CopySteps(names) + [FinishBackup]);
            && s'.rows == s.rows && s'.disk == s.disk && s'.lock == None
            && PhaseOf(s', a).BackedUp? && PhaseOf(s', a).rows == s.rows
            && PhaseOf(s', a).copied.Keys == Referenced(s.rows)
            && (forall n :: n in Referenced(s.rows) ==>
                  Final(n) in s.disk && s.disk[Final(n)] == Content(PhaseOf(s', a).copied[n], true))
  {
    BackupReachesCopying(s, a);
    ReferencedFiles(s, names);
    hide Act, Sound, Solo, PhaseOf, Referenced, Copyable, CopySteps;
    var begin := [SubmitBackup, Acquire] + [CopyDatabase];
    var copying := Solo(s, a, begin);
    CopiesEach(copying, a, s.rows, s.disk, names);
    SoloConcat(s, a, begin, CopySteps(names));
    SoloNext(s, a, begin + CopySteps(names), FinishBackup);
    BackupFinishes(Solo(s, a, begin + CopySteps(names)), a, s.rows, s.disk, Copies(names, s.disk));
  }

  lemma BackupReachesCopying(s: State, a: Actor)
    requires s.lock == None && PhaseOf(s, a) == Ready
    ensures var copying := Solo(s, a, [SubmitBackup, Acquire] + [CopyDatabase]);
            PhaseOf(copying, a) == Copying(s.rows, s.disk, map[]) && copying.rows == s.rows && copying.disk == s.disk
  {
    var copying := Act(Act(Act(s, a, SubmitBackup), a, Acquire), a, CopyDatabase);
    assert PhaseOf(copying, a) == Copying(s.rows, s.disk, map[]) && copying.rows == s.rows && copying.disk == s.disk;
    hide Act;
    SoloTwo(s, a, SubmitBackup, Acquire);
    SoloNext(s, a, [SubmitBackup, Acquire], CopyDatabase);
  }

  lemma ReferencedFiles(s: State, names: seq<Name>)
    requires References(s)
    requires forall j, k :: 0 <= j < k < |names| ==> names[j] != names[k]
    requires forall n :: n in names <==> n in Referenced(s.rows)
    ensures Copyable(s.rows, s.disk, names) && Copies(names, s.disk).Keys == Referenced(s.rows)
    ensures forall n :: n in Referenced(s.rows) ==>
              Final(n) in s.disk && s.disk[Final(n)] == Content(Copies(names, s.disk)[n], true)
  {
  }

  lemma BackupFinishes(s: State, a: Actor, rows: Rows, disk: Disk, copied: map<Name, Bytes>)
    requires PhaseOf(s, a) == Copying(rows, disk, copied) && copied.Keys == Referenced(rows)
    ensures var s' := Act(s, a, FinishBackup);
            s'.rows == s.rows && s'.disk == s.disk && s'.lock == None && PhaseOf(s', a) == BackedUp(rows, disk, copied)
  {
  }
}
