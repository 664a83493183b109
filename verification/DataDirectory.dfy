/** Restore and rollback as chains of renames in one data directory, with their
    compensation lists, under a fault injected at any chosen operation. */
module DataDirectory {

  datatype StateName = Database | Wal | Shm | Images

  /** The data directory itself, the prior directory a restore leaves, the
      directory a rollback sets the current state aside in, and the stage. */
  datatype Place = Live | Prior | Aside | Stage

  /** The staged database starts one level below the place it is put back to. */
  datatype Path = At(place: Place, n: StateName) | StagedDatabase

  datatype Content = Plain(bytes: string) | Folder(files: map<string, string>)

  type Entries = map<Path, Content>

  const STATE_NAMES: seq<StateName> := [Database, Wal, Shm, Images]

  function Index(n: StateName): nat {
    match n case Database => 0 case Wal => 1 case Shm => 2 case Images => 3
  }

  /** rename(2): a file replaces a file, a folder only an empty folder. */
  predicate MayReplace(source: Content, target: Content) {
    (source.Plain? && target.Plain?) || (source.Folder? && target.Folder? && target.files == map[])
  }

  /** One entry is the same in two states of the directory, or in neither. */
  predicate SameEntry(e: Entries, p: Path, e': Entries, p': Path) {
    (p in e <==> p' in e') && (p in e ==> e[p] == e'[p'])
  }

  /** The four-name state at one place of `e` is the one at a place of `e'`. */
  ghost predicate SameState(e: Entries, place: Place, e': Entries, place': Place) {
    forall n :: SameEntry(e, At(place, n), e', At(place', n))
  }

  ghost predicate Nothing(e: Entries, place: Place) {
    forall n :: At(place, n) !in e
  }

  /** Everything outside the two places is untouched. */
  ghost predicate Elsewhere(e: Entries, e': Entries, from: Place, to: Place) {
    forall p: Path :: p == StagedDatabase || (p.place != from && p.place != to) ==> SameEntry(e, p, e', p)
  }

  /** Entries of `from` with index below `k` have moved to `to`. */
  ghost predicate Shifted(e: Entries, e': Entries, from: Place, to: Place, k: nat) {
    Elsewhere(e, e', from, to) && ShiftedNames(e, e', from, to, k)
  }

  ghost predicate ShiftedNames(e: Entries, e': Entries, from: Place, to: Place, k: nat) {
    && (forall n :: Index(n) < k ==>
          && At(from, n) !in e'
          && (if At(from, n) in e then SameEntry(e, At(from, n), e', At(to, n))
              else SameEntry(e, At(to, n), e', At(to, n))))
    && (forall n :: Index(n) >= k ==>
          SameEntry(e, At(from, n), e', At(from, n)) && SameEntry(e, At(to, n), e', At(to, n)))
  }

  /** A state some prefix of the move passes through. */
  ghost predicate PartlyShifted(e: Entries, e': Entries, from: Place, to: Place) {
    exists k: nat :: k <= 4 && Shifted(e, e', from, to, k)
  }

  ghost predicate AllPartlyShifted(e: Entries, steps: seq<Entries>, from: Place, to: Place) {
    forall h :: 0 <= h < |steps| ==> PartlyShifted(e, steps[h], from, to)
  }

  lemma MorePartlyShifted(e: Entries, steps: seq<Entries>, e': Entries, from: Place, to: Place, k: nat)
    requires AllPartlyShifted(e, steps, from, to) && k <= 4 && Shifted(e, e', from, to, k)
    ensures AllPartlyShifted(e, steps + [e'], from, to)
  {
  }

  lemma NothingShifted(e: Entries, from: Place, to: Place)
    ensures Shifted(e, e, from, to, 0) && AllPartlyShifted(e, [], from, to) && CountBelow(e, from, 0) == 0
  {
  }

  /** Moving the next name extends the shift, and replaces nothing that was
      not at the target from the start. */
  lemma ShiftNext(e: Entries, e': Entries, from: Place, to: Place, k: nat)
    requires from != to && k < 4 && Shifted(e, e', from, to, k)
    ensures var name := STATE_NAMES[k];
            && (At(from, name) in e' <==> At(from, name) in e)
            && (At(from, name) in e' ==> e'[At(from, name)] == e[At(from, name)])
            && (At(to, name) in e' <==> At(to, name) in e)
            && (At(to, name) in e' ==> e'[At(to, name)] == e[At(to, name)])
            && CountBelow(e, from, k + 1) == CountBelow(e, from, k) + (if At(from, name) in e then 1 else 0)
            && Shifted(e, Moved(e', At(from, name), At(to, name)), from, to, k + 1)
            && (At(from, name) !in e' ==> Moved(e', At(from, name), At(to, name)) == e')
            && (Nothing(e, to) ==> At(to, name) !in e')
            && Index(name) == k && (forall n :: Index(n) == k ==> n == name)
  {
    var name := STATE_NAMES[k];
    assert Index(name) == k;
    assert SameEntry(e, At(from, name), e', At(from, name)) && SameEntry(e, At(to, name), e', At(to, name));
    var after := Moved(e', At(from, name), At(to, name));
    forall p: Path | p == StagedDatabase || (p.place != from && p.place != to)
      ensures SameEntry(e, p, after, p)
    {
      assert SameEntry(e, p, e', p);
    }
    forall n | n != name
      ensures SameEntry(e', At(from, n), after, At(from, n)) && SameEntry(e', At(to, n), after, At(to, n))
    {
    }
  }

  /** The listed names have gone from `from` to `to`, and no others. */
  ghost predicate BackedUpTo(e: Entries, e': Entries, names: seq<StateName>, from: Place, to: Place) {
    && Elsewhere(e, e', from, to)
    && (forall n :: n in names ==> At(from, n) !in e' && SameEntry(e, At(from, n), e', At(to, n)))
    && (forall n :: n !in names ==>
          SameEntry(e, At(from, n), e', At(from, n)) && SameEntry(e, At(to, n), e', At(to, n)))
  }

  ghost predicate PartlyBack(e: Entries, e': Entries, names: seq<StateName>, from: Place, to: Place) {
    exists k: nat :: k <= |names| && BackedUpTo(e, e', names[..k], from, to)
  }

  ghost predicate AllPartlyBack(e: Entries, steps: seq<Entries>, names: seq<StateName>, from: Place, to: Place) {
    forall h :: 0 <= h < |steps| ==> PartlyBack(e, steps[h], names, from, to)
  }

  lemma MorePartlyBack(
    e: Entries, steps: seq<Entries>, e': Entries, names: seq<StateName>, k: nat, from: Place, to: Place)
    requires AllPartlyBack(e, steps, names, from, to) && k <= |names| && BackedUpTo(e, e', names[..k], from, to)
    ensures AllPartlyBack(e, steps + [e'], names, from, to)
  {
  }

  lemma BackNext(e: Entries, e': Entries, names: seq<StateName>, name: StateName, from: Place, to: Place)
    requires from != to && BackedUpTo(e, e', names, from, to) && At(to, name) !in e
    ensures At(from, name) in e' ==> At(to, name) !in e'
    ensures BackedUpTo(e, Moved(e', At(from, name), At(to, name)), names + [name], from, to)
  {
    assert name !in names ==>
        SameEntry(e, At(to, name), e', At(to, name)) && SameEntry(e, At(from, name), e', At(from, name));
    var after := Moved(e', At(from, name), At(to, name));
    forall p: Path | p == StagedDatabase || (p.place != from && p.place != to)
      ensures SameEntry(e, p, after, p)
    {
      assert SameEntry(e, p, e', p);
    }
    forall n | n != name
      ensures SameEntry(e', At(from, n), after, At(from, n)) && SameEntry(e', At(to, n), after, At(to, n))
    {
    }
    assert forall n :: n in names + [name] <==> n in names || n == name;
  }

  /** A rename, if there is anything to rename. */
  function Moved(e: Entries, source: Path, target: Path): Entries {
    if source in e then (e - {source})[target := e[source]] else e
  }

  function CountBelow(e: Entries, place: Place, k: nat): nat
    requires k <= 4
  {
    if k == 0 then 0
    else CountBelow(e, place, k - 1) + (if At(place, STATE_NAMES[k - 1]) in e then 1 else 0)
  }

  lemma {:induction false} CountGrows(e: Entries, place: Place, j: nat, k: nat)
    requires j <= k <= 4
    ensures CountBelow(e, place, j) <= CountBelow(e, place, k)
  {
    if j < k {
      CountGrows(e, place, j, k - 1);
    }
  }

  lemma NextTargetIsFree(e: Entries, e': Entries, from: Place, to: Place, k: nat)
    requires from != to && ShiftedNames(e, e', from, to, k) && Nothing(e, to)
    ensures forall n :: Index(n) >= k ==> At(to, n) !in e'
    ensures k < 4 && At(from, STATE_NAMES[k]) in e' ==>
              && At(from, STATE_NAMES[k]) in e && At(to, STATE_NAMES[k]) !in e'
              && CountBelow(e, from, k + 1) == CountBelow(e, from, k) + 1
    ensures forall n :: Index(n) < k ==> At(from, n) !in e'
  {
    forall n | Index(n) >= k ensures At(to, n) !in e' {
      assert SameEntry(e, At(to, n), e', At(to, n));
    }
    if k < 4 {
      assert Index(STATE_NAMES[k]) == k;
    }
  }

  /** A whole shift into an empty place carries the state over. */
  lemma FullShift(e: Entries, e': Entries, from: Place, to: Place)
    requires from != to && ShiftedNames(e, e', from, to, 4) && Nothing(e, to)
    ensures SameState(e, from, e', to) && Nothing(e', from)
  {
    forall n ensures SameEntry(e, At(from, n), e', At(to, n)) && At(from, n) !in e' {
      assert Index(n) < 4;
      assert At(from, n) !in e ==> SameEntry(e, At(to, n), e', At(to, n));
    }
  }

  /** Undoing a partial shift into an empty place restores both places. */
  lemma ShiftUndone(e: Entries, e': Entries, e'': Entries, moved: seq<StateName>, from: Place, to: Place, k: nat)
    requires from != to && ShiftedNames(e, e', from, to, k) && Nothing(e, to)
    requires forall n :: n in moved <==> Index(n) < k && At(from, n) in e
    requires BackedUpTo(e', e'', moved, to, from)
    ensures SameState(e, from, e'', from) && Nothing(e'', to)
  {
    forall n ensures SameEntry(e, At(from, n), e'', At(from, n)) && At(to, n) !in e'' {
      if Index(n) < k {
        assert At(from, n) !in e ==> SameEntry(e, At(to, n), e', At(to, n));
      } else {
        assert SameEntry(e, At(from, n), e', At(from, n)) && SameEntry(e, At(to, n), e', At(to, n));
      }
    }
  }

  lemma SameNamesStayShifted(e: Entries, e': Entries, e'': Entries, from: Place, to: Place, k: nat)
    requires ShiftedNames(e, e', from, to, k)
    requires SameState(e', from, e'', from) && SameState(e', to, e'', to)
    ensures ShiftedNames(e, e'', from, to, k)
  {
    forall n ensures SameEntry(e', At(from, n), e'', At(from, n)) && SameEntry(e', At(to, n), e'', At(to, n)) {
    }
  }

  /** How many of the four names exist at a place. */
  function Count(e: Entries, place: Place): nat {
    CountBelow(e, place, 4)
  }

  /** What lives under a name is nothing, or what the stage held for it. */
  ghost predicate LiveFromStage(e: Entries, e': Entries, n: StateName) {
    At(Live, n) in e' ==>
      var source := if n == Database then StagedDatabase else At(Stage, n);
      (n == Database || n == Images) && source in e && e'[At(Live, n)] == e[source]
  }

  /** Each entry that was live is in exactly one place, live or prior: once it
      is under prior, at most the staged entry lives under its name. */
  ghost predicate Preserves(e: Entries, e': Entries) {
    forall n :: At(Live, n) in e ==>
      if At(Prior, n) in e' then e'[At(Prior, n)] == e[At(Live, n)] && LiveFromStage(e, e', n)
      else At(Live, n) in e' && e'[At(Live, n)] == e[At(Live, n)]
  }

  /** The prior directory is as it was, and only staged entries live. */
  ghost predicate KeepsPrior(e: Entries, e': Entries) {
    SameState(e, Prior, e', Prior) && forall n :: LiveFromStage(e, e', n)
  }

  ghost predicate AllKeepPrior(e: Entries, steps: seq<Entries>) {
    forall h :: 0 <= h < |steps| ==> KeepsPrior(e, steps[h])
  }

  ghost predicate AllPreserve(e: Entries, steps: seq<Entries>) {
    forall h :: 0 <= h < |steps| ==> Preserves(e, steps[h])
  }

  lemma ShiftPreserves(e: Entries, steps: seq<Entries>)
    requires Nothing(e, Prior) && AllPartlyShifted(e, steps, Live, Prior)
    ensures AllPreserve(e, steps)
  {
    forall h | 0 <= h < |steps| ensures Preserves(e, steps[h]) {
      var k: nat :| k <= 4 && Shifted(e, steps[h], Live, Prior, k);
      PartialShiftPreserves(e, steps[h], k);
    }
  }

  lemma PartialShiftPreserves(e: Entries, e': Entries, k: nat)
    requires Nothing(e, Prior) && ShiftedNames(e, e', Live, Prior, k)
    ensures Preserves(e, e')
  {
    forall n | At(Live, n) in e && Index(n) >= k
      ensures SameEntry(e, At(Live, n), e', At(Live, n)) && At(Prior, n) !in e'
    {
      assert SameEntry(e, At(Prior, n), e', At(Prior, n));
    }
  }

  /** The stage is the same at the start and when the old state is under prior. */
  ghost predicate SameStage(e: Entries, e': Entries) {
    SameEntry(e, StagedDatabase, e', StagedDatabase) && SameEntry(e, At(Stage, Images), e', At(Stage, Images))
  }

  /** While the prior directory holds the whole old state, nothing is lost. */
  lemma KeptPriorPreserves(e: Entries, e': Entries, steps: seq<Entries>)
    requires SameState(e, Live, e', Prior) && SameStage(e, e') && AllKeepPrior(e', steps)
    ensures AllPreserve(e, steps)
  {
    forall h | 0 <= h < |steps| ensures Preserves(e, steps[h]) {
      forall n | At(Live, n) in e
        ensures At(Prior, n) in steps[h] && steps[h][At(Prior, n)] == e[At(Live, n)] && LiveFromStage(e, steps[h], n)
      {
        assert SameEntry(e, At(Live, n), e', At(Prior, n)) && SameEntry(e', At(Prior, n), steps[h], At(Prior, n));
        assert LiveFromStage(e', steps[h], n);
      }
    }
  }

  /** Uninstalling the staged pair leaves the prior directory alone. */
  lemma UninstallKeepsPrior(e: Entries, before: Entries, steps: seq<Entries>, installed: seq<StateName>)
    requires AllPartlyBack(before, steps, installed, Live, Stage) && KeepsPrior(e, before)
    ensures AllKeepPrior(e, steps)
  {
    forall h | 0 <= h < |steps| ensures KeepsPrior(e, steps[h]) {
      var k: nat :| k <= |installed| && BackedUpTo(before, steps[h], installed[..k], Live, Stage);
      forall n ensures SameEntry(e, At(Prior, n), steps[h], At(Prior, n)) {
        assert SameEntry(e, At(Prior, n), before, At(Prior, n));
      }
      forall n ensures LiveFromStage(e, steps[h], n) {
        assert LiveFromStage(e, before, n);
        if n !in installed[..k] {
          assert SameEntry(before, At(Live, n), steps[h], At(Live, n));
        }
      }
    }
  }

  /** Moving the old entries home passes only through states that keep them. */
  lemma MovingHomePreserves(e: Entries, e': Entries, steps: seq<Entries>, moved: seq<StateName>, k: nat)
    requires ShiftedNames(e, e', Live, Prior, k) && Nothing(e, Prior)
    requires forall n :: n in moved <==> Index(n) < k && At(Live, n) in e
    requires AllPartlyBack(e', steps, moved, Prior, Live)
    ensures AllPreserve(e, steps)
  {
    forall h | 0 <= h < |steps| ensures Preserves(e, steps[h]) {
      var j: nat :| j <= |moved| && BackedUpTo(e', steps[h], moved[..j], Prior, Live);
      PartlyHomePreserves(e, e', steps[h], moved, moved[..j], k);
    }
  }

  lemma PartlyHomePreserves(
    e: Entries, e': Entries, e'': Entries, moved: seq<StateName>, back: seq<StateName>, k: nat)
    requires ShiftedNames(e, e', Live, Prior, k) && Nothing(e, Prior)
    requires forall n :: n in moved <==> Index(n) < k && At(Live, n) in e
    requires (forall n :: n in back ==> n in moved) && BackedUpTo(e', e'', back, Prior, Live)
    ensures Preserves(e, e'')
  {
    forall n | At(Live, n) in e
      ensures if At(Prior, n) in e'' then e''[At(Prior, n)] == e[At(Live, n)] && At(Live, n) !in e''
              else At(Live, n) in e'' && e''[At(Live, n)] == e[At(Live, n)]
    {
      if Index(n) < k {
        assert SameEntry(e, At(Live, n), e', At(Prior, n)) && At(Live, n) !in e';
      } else {
        assert n !in back;
        assert SameEntry(e, At(Live, n), e', At(Live, n)) && SameEntry(e, At(Prior, n), e', At(Prior, n));
      }
      if n in back {
        assert SameEntry(e', At(Prior, n), e'', At(Live, n));
      } else {
        assert SameEntry(e', At(Live, n), e'', At(Live, n)) && SameEntry(e', At(Prior, n), e'', At(Prior, n));
      }
    }
  }

  lemma AllPreserveConcat(e: Entries, s: seq<Entries>, s': seq<Entries>)
    requires AllPreserve(e, s) && AllPreserve(e, s')
    ensures AllPreserve(e, s + s')
  {
  }

  lemma UninstallPreserves(
    start: Entries, shifted: Entries, before: Entries, steps: seq<Entries>, installed: seq<StateName>)
    requires AllPartlyBack(before, steps, installed, Live, Stage)
    requires installed != [] ==> SameState(start, Live, shifted, Prior) && SameStage(start, shifted)
    requires installed != [] ==> KeepsPrior(shifted, before)
    requires installed == [] ==> steps == []
    ensures AllPreserve(start, steps)
  {
    if installed != [] {
      UninstallKeepsPrior(shifted, before, steps, installed);
      KeptPriorPreserves(start, shifted, steps);
    }
  }

  /** How a rollback ended: the phase a fault struck in, if any. */
  datatype Rollback = Done | Refused | NotStarted | FaultMovingOut | FaultLater

  /** Only `images` is a folder. */
  predicate Typed(e: Entries) {
    forall n :: && (At(Live, n) in e ==> (e[At(Live, n)].Folder? <==> n == Images))
                && (At(Prior, n) in e ==> (e[At(Prior, n)].Folder? <==> n == Images))
  }

  /** The one case in which a fault while moving out is harmless: `images` was
      all there was to move, and the handler's rename onto the prior images is
      refused because they are not empty. */
  predicate OnlyImagesAtStake(e: Entries) {
    && (forall n :: n != Images ==> At(Live, n) !in e)
    && At(Prior, Images) in e && e[At(Prior, Images)].Folder? && e[At(Prior, Images)].files != map[]
  }

  /** Going part of the way to an empty place and wholly back changes nothing. */
  lemma ThereAndBack(e: Entries, e': Entries, e'': Entries, from: Place, to: Place, k: nat)
    requires from != to && ShiftedNames(e, e', from, to, k) && Nothing(e, to)
    requires ShiftedNames(e', e'', to, from, 4)
    ensures SameState(e, from, e'', from) && Nothing(e'', to)
  {
    forall n ensures SameEntry(e, At(from, n), e'', At(from, n)) && At(to, n) !in e'' {
      assert Index(n) < 4;
      if Index(n) < k {
        assert At(from, n) !in e ==> SameEntry(e, At(to, n), e', At(to, n));
      } else {
        assert SameEntry(e, At(from, n), e', At(from, n)) && SameEntry(e, At(to, n), e', At(to, n));
        assert SameEntry(e', At(from, n), e'', At(from, n));
      }
    }
  }

  /** The set-aside state comes home. */
  lemma AsideComesHome(start: Entries, e: Entries, e': Entries, moved: seq<StateName>)
    requires SameState(start, Live, e, Aside) && Nothing(e, Live)
    requires forall n :: n in moved <==> At(Live, n) in start
    requires BackedUpTo(e, e', moved, Aside, Live)
    ensures SameState(start, Live, e', Live) && Nothing(e', Aside)
  {
    forall n ensures SameEntry(start, At(Live, n), e', At(Live, n)) && At(Aside, n) !in e' {
      assert SameEntry(start, At(Live, n), e, At(Aside, n));
      if n in moved {
        assert SameEntry(e, At(Aside, n), e', At(Live, n));
      } else {
        assert SameEntry(e, At(Live, n), e', At(Live, n)) && SameEntry(e, At(Aside, n), e', At(Aside, n));
      }
    }
  }

  lemma SameStateTransitive(e: Entries, e': Entries, e'': Entries, p: Place, p': Place, p'': Place)
    requires SameState(e, p, e', p') && SameState(e', p', e'', p'')
    ensures SameState(e, p, e'', p'')
  {
    forall n ensures SameEntry(e, At(p, n), e'', At(p'', n)) {
      assert SameEntry(e, At(p, n), e', At(p', n)) && SameEntry(e', At(p', n), e'', At(p'', n));
    }
  }

  /** The handler's first loop after a fault in the middle of moving out. It
      takes the entry the fault struck at away from the live directory, unless
      that entry is a non-empty `images` on top of non-empty prior images. */
  lemma StruckEntryLeaves(
    start: Entries, struck: Entries, mid: Entries, k: nat, reached: nat, swept: seq<StateName>)
    requires k < 4 && reached <= 4 && Typed(start) && Nothing(start, Aside)
    requires Shifted(start, struck, Live, Aside, k) && At(Live, STATE_NAMES[k]) in struck
    requires Shifted(struck, mid, Live, Prior, reached)
    requires forall n :: n in swept <==> Index(n) < reached && At(Live, n) in struck
    requires forall n :: n in swept && At(Prior, n) in struck ==>
               MayReplace(struck[At(Live, n)], struck[At(Prior, n)])
    requires reached < 4 ==>
               && At(Live, STATE_NAMES[reached]) in mid && At(Prior, STATE_NAMES[reached]) in mid
               && !MayReplace(mid[At(Live, STATE_NAMES[reached])], mid[At(Prior, STATE_NAMES[reached])])
    ensures At(Live, STATE_NAMES[k]) in start
    ensures reached > k ==> At(Live, STATE_NAMES[k]) !in mid && !OnlyImagesAtStake(start)
    ensures reached > k ==> SameEntry(start, At(Live, STATE_NAMES[k]), mid, At(Prior, STATE_NAMES[k]))
    ensures reached <= k ==>
              && reached == k == 3 && SameState(start, Prior, mid, Prior)
              && (SameState(start, Live, mid, Live) <==> OnlyImagesAtStake(start))
  {
    var x := STATE_NAMES[k];
    assert Index(x) == k;
    assert SameEntry(start, At(Live, x), struck, At(Live, x));
    forall n ensures SameEntry(start, At(Prior, n), struck, At(Prior, n)) {
    }
    if reached > k {
      assert x in swept;
      assert SameEntry(struck, At(Live, x), mid, At(Prior, x));
    } else {
      var y := STATE_NAMES[reached];
      assert Index(y) == reached;
      assert SameEntry(struck, At(Live, y), mid, At(Live, y)) && SameEntry(struck, At(Prior, y), mid, At(Prior, y));
      assert reached < k ==> At(Live, y) !in struck;
      assert y == x == Images;
      forall n
        ensures SameEntry(start, At(Prior, n), mid, At(Prior, n))
        ensures if n == Images then SameEntry(start, At(Live, n), mid, At(Live, n)) else At(Live, n) !in mid
      {
        if Index(n) < 3 {
          assert At(Live, n) !in struck;
          assert SameEntry(struck, At(Prior, n), mid, At(Prior, n));
        } else {
          assert n == Images;
        }
      }
    }
  }

  /** The index of a rollback's last operation: its first is 0. */
  function LastOperation(e: Entries, owned: bool): nat {
    Count(e, Live) + Count(e, Prior) + 1 + (if owned then 1 else 0)
  }

  /** Moving into an empty place can only fail at an operation that faults. */
  lemma MoveFaults(e: Entries, e': Entries, from: Place, to: Place, reached: nat, ok: bool)
    requires from != to && reached <= 4 && Shifted(e, e', from, to, reached) && Nothing(e, to)
    requires ok ==> reached == 4
    requires !ok ==> reached < 4 && At(from, STATE_NAMES[reached]) in e'
    ensures ok ==> CountBelow(e, from, reached) == Count(e, from)
    ensures !ok ==> CountBelow(e, from, reached) < Count(e, from) && At(to, STATE_NAMES[reached]) !in e'
  {
    NextTargetIsFree(e, e', from, to, reached);
    CountGrows(e, from, if ok then 4 else reached + 1, 4);
  }

  lemma {:induction false} SamePlaceSameCount(e: Entries, e': Entries, p: Place, p': Place, k: nat)
    requires k <= 4 && SameState(e, p, e', p')
    ensures CountBelow(e, p, k) == CountBelow(e', p', k)
  {
    if k > 0 {
      assert SameEntry(e, At(p, STATE_NAMES[k - 1]), e', At(p', STATE_NAMES[k - 1]));
      SamePlaceSameCount(e, e', p, p', k - 1);
    }
  }

  lemma OtherCountsStay(e: Entries, e': Entries, from: Place, to: Place, other: Place)
    requires Shifted(e, e', from, to, 4) && other != from && other != to
    ensures Count(e', other) == Count(e, other)
  {
    forall n ensures SameEntry(e, At(other, n), e', At(other, n)) {
    }
    SamePlaceSameCount(e, e', other, other, 4);
  }

  /** The count of the names at a place, as the size of a set. */
  lemma CountIsSize(e: Entries, names: set<StateName>, place: Place)
    requires forall n :: At(place, n) in e <==> n in names
    ensures Count(e, place) == |names|
  {
    var two := Only(names, Database) + Only(names, Wal);
    var three := two + Only(names, Shm);
    assert |two| == CountBelow(e, place, 2) by {
      assert CountBelow(e, place, 1) == |Only(names, Database)|;
    }
    assert |three| == CountBelow(e, place, 3);
    assert |three + Only(names, Images)| == CountBelow(e, place, 4);
    forall n ensures n in names <==> n in three + Only(names, Images) {
      match n case Database => case Wal => case Shm => case Images =>
    }
    assert names == three + Only(names, Images);
  }

  function Only(names: set<StateName>, n: StateName): set<StateName> {
    if n in names then {n} else {}
  }

  lemma PriorStays(start: Entries, emptied: Entries)
    requires Shifted(start, emptied, Live, Aside, 4)
    ensures SameState(start, Prior, emptied, Prior)
  {
  }

  /** The handler's sweep meets nothing under prior that it could clash with. */
  lemma SweepMeetsNothing(emptied: Entries, placed: Entries, returned: Entries, reached: nat, reached': nat)
    requires reached <= 4 && ShiftedNames(emptied, placed, Prior, Live, reached) && Nothing(emptied, Live)
    requires reached' <= 4 && ShiftedNames(placed, returned, Live, Prior, reached')
    ensures reached' < 4 ==>
              At(Live, STATE_NAMES[reached']) !in returned || At(Prior, STATE_NAMES[reached']) !in returned
  {
    forall n | Index(n) >= reached'
      ensures At(Live, n) !in returned || At(Prior, n) !in returned
    {
      assert SameEntry(placed, At(Live, n), returned, At(Live, n));
      assert SameEntry(placed, At(Prior, n), returned, At(Prior, n));
      assert Index(n) >= reached ==> SameEntry(emptied, At(Live, n), placed, At(Live, n));
    }
    assert forall k :: 0 <= k < 4 ==> Index(STATE_NAMES[k]) == k;
  }

  lemma AsideStays(emptied: Entries, placed: Entries, returned: Entries)
    requires Elsewhere(emptied, placed, Prior, Live) && Elsewhere(placed, returned, Live, Prior)
    ensures SameState(emptied, Aside, returned, Aside)
  {
    forall n ensures SameEntry(emptied, At(Aside, n), returned, At(Aside, n)) {
      assert SameEntry(emptied, At(Aside, n), placed, At(Aside, n));
      assert SameEntry(placed, At(Aside, n), returned, At(Aside, n));
    }
  }

  lemma PriorStaysWhenHome(e: Entries, e': Entries, moved: seq<StateName>)
    requires BackedUpTo(e, e', moved, Aside, Live)
    ensures SameState(e, Prior, e', Prior)
  {
  }

  /** The directory after a restore and a while of the application. */
  lemma Lived(start: Entries, after: Entries, lived: Entries, changes: map<StateName, Content>)
    requires SameState(start, Live, after, Prior) && SameState(start, Aside, after, Aside) && Nothing(start, Aside)
    requires Typed(start) && At(Live, Database) in start
    requires forall n :: n in changes ==> (changes[n].Folder? <==> n == Images)
    requires forall n :: At(Live, n) in lived <==> n in changes
    requires forall n :: n in changes ==> lived[At(Live, n)] == changes[n]
    requires SameState(after, Prior, lived, Prior) && SameState(after, Aside, lived, Aside)
    ensures Typed(lived) && Nothing(lived, Aside) && At(Prior, Database) in lived
    ensures SameState(start, Live, lived, Prior)
    ensures Count(lived, Live) == |changes| && Count(lived, Prior) == Count(start, Live)
  {
    SameStateTransitive(start, after, lived, Live, Prior, Prior);
    SamePlaceSameCount(start, lived, Live, Prior, 4);
    SameStateTransitive(start, after, lived, Aside, Aside, Aside);
    CountIsSize(lived, changes.Keys, Live);
    assert SameEntry(start, At(Live, Database), lived, At(Prior, Database));
    forall n ensures At(Aside, n) !in lived {
      assert SameEntry(start, At(Aside, n), lived, At(Aside, n));
    }
    forall n
      ensures At(Live, n) in lived ==> (lived[At(Live, n)].Folder? <==> n == Images)
      ensures At(Prior, n) in lived ==> (lived[At(Prior, n)].Folder? <==> n == Images)
    {
      assert SameEntry(start, At(Live, n), lived, At(Prior, n));
    }
  }

  lemma StillLives(lived: Entries, e: Entries, changes: map<StateName, Content>)
    requires SameState(lived, Live, e, Live)
    requires forall n :: At(Live, n) in lived <==> n in changes
    requires forall n :: n in changes ==> lived[At(Live, n)] == changes[n]
    ensures forall n :: (At(Live, n) in e <==> n in changes) && (n in changes ==> e[At(Live, n)] == changes[n])
  {
    forall n ensures SameEntry(lived, At(Live, n), e, At(Live, n)) {
    }
  }

  class Tree {
    var entries: Entries
    /** The operation that will fail, counted from now; negative for none. */
    var fault: int
    /** Every state a rename has left, and whether one replaced an entry. */
    ghost var history: seq<Entries>
    ghost var overwrote: bool

    constructor (entries: Entries, fault: int)
      ensures this.entries == entries && this.fault == fault && history == [] && !overwrote
    {
      this.entries, this.fault := entries, fault;
      history, overwrote := [], false;
    }

    /** An operation that changes no entry: mkdir, chown, fsync. */
    method Touch() returns (ok: bool)
      modifies this`fault
      ensures ok <==> old(fault) != 0
      ensures fault == old(fault) - 1
    {
      ok := fault != 0;
      fault := fault - 1;
    }

    /** os.replace. */
    method Replace(source: Path, target: Path) returns (ok: bool)
      requires source in entries && source != target
      modifies this
      ensures fault == old(fault) - 1
      ensures ok <==>
                old(fault) != 0 && (target in old(entries) ==> MayReplace(old(entries)[source], old(entries)[target]))
      ensures entries == if ok then (old(entries) - {source})[target := old(entries)[source]] else old(entries)
      ensures history == old(history) + (if ok then [entries] else [])
      ensures overwrote <==> old(overwrote) || (ok && target in old(entries))
    {
      ok := fault != 0 && (target in entries ==> MayReplace(entries[source], entries[target]));
      fault := fault - 1;
      if ok {
        overwrote := overwrote || target in entries;
        entries := (entries - {source})[target := entries[source]];
        history := history + [entries];
      }
    }

    /** The loop over the four state names: move what exists, stop at a fault.
        `reached` is the index the loop got to. */
    method MoveAll(from: Place, to: Place) returns (ok: bool, moved: seq<StateName>, ghost reached: nat)
      requires from != to
      modifies this
      ensures reached <= 4 && Shifted(old(entries), entries, from, to, reached)
      ensures forall n :: n in moved <==> Index(n) < reached && At(from, n) in old(entries)
      ensures forall n :: n in moved && At(to, n) in old(entries) ==>
                MayReplace(old(entries)[At(from, n)], old(entries)[At(to, n)])
      ensures |moved| == CountBelow(old(entries), from, reached)
      ensures ok ==> reached == 4 && fault == old(fault) - |moved|
      ensures ok ==> !(0 <= old(fault) < |moved|)
      ensures !ok ==> reached < 4 && fault == old(fault) - |moved| - 1
      ensures !ok ==>
                var source, target := At(from, STATE_NAMES[reached]), At(to, STATE_NAMES[reached]);
                source in entries &&
                (old(fault) == |moved| || (target in entries && !MayReplace(entries[source], entries[target])))
      ensures Nothing(old(entries), to) ==> overwrote == old(overwrote)
      ensures exists steps :: history == old(history) + steps && AllPartlyShifted(old(entries), steps, from, to)
    {
      hide Shifted, MayReplace, AllPartlyShifted, Moved, Nothing, CountBelow, SameEntry;
      NothingShifted(entries, from, to);
      moved, ok, reached := [], true, 0;
      ghost var steps: seq<Entries> := [];
      var k := 0;
      while k < 4
        invariant k <= 4 && reached == k
        invariant Shifted(old(entries), entries, from, to, k)
        invariant forall n :: n in moved <==> Index(n) < k && At(from, n) in old(entries)
        invariant forall n :: n in moved && At(to, n) in old(entries) ==>
          MayReplace(old(entries)[At(from, n)], old(entries)[At(to, n)])
        invariant |moved| == CountBelow(old(entries), from, k)
        invariant fault == old(fault) - |moved| && !(0 <= old(fault) < |moved|)
        invariant Nothing(old(entries), to) ==> overwrote == old(overwrote)
        invariant history == old(history) + steps && AllPartlyShifted(old(entries), steps, from, to)
      {
        var name := STATE_NAMES[k];
        ShiftNext(old(entries), entries, from, to, k);
        if At(from, name) in entries {
          ok := MoveOne(from, to, name);
          if !ok {
            return;
          }
          moved := moved + [name];
          MorePartlyShifted(old(entries), steps, entries, from, to, k + 1);
          steps := steps + [entries];
        }
        k, reached := k + 1, k + 1;
      }
    }

    method MoveOne(from: Place, to: Place, name: StateName) returns (ok: bool)
      requires At(from, name) in entries && from != to
      modifies this
      ensures fault == old(fault) - 1
      ensures ok <==> old(fault) != 0 &&
                      (At(to, name) in old(entries) ==>
                         MayReplace(old(entries)[At(from, name)], old(entries)[At(to, name)]))
      ensures entries == if ok then Moved(old(entries), At(from, name), At(to, name)) else old(entries)
      ensures history == old(history) + (if ok then [entries] else [])
      ensures At(to, name) !in old(entries) ==> overwrote == old(overwrote)
    {
      ok := Replace(At(from, name), At(to, name));
    }

    /** A compensation loop: put each listed entry that still exists at `from`
        back to `to`, where its place is free. */
    method MoveBack(names: seq<StateName>, from: Place, to: Place) returns (ok: bool)
      requires from != to && fault < 0
      requires forall n :: n in names ==> At(to, n) !in entries
      modifies this
      ensures ok && fault < 0
      ensures BackedUpTo(old(entries), entries, names, from, to)
      ensures exists steps :: history == old(history) + steps && AllPartlyBack(old(entries), steps, names, from, to)
                              && (names == [] ==> steps == [])
      ensures overwrote == old(overwrote)
    {
      ok := true;
      ghost var steps: seq<Entries> := [];
      for k := 0 to |names|
        invariant ok && fault < 0 && overwrote == old(overwrote)
        invariant BackedUpTo(old(entries), entries, names[..k], from, to)
        invariant history == old(history) + steps && AllPartlyBack(old(entries), steps, names, from, to)
        invariant k == 0 ==> steps == []
      {
        hide BackedUpTo, AllPartlyBack;
        var name := names[k];
        assert names[..k + 1] == names[..k] + [name];
        BackNext(old(entries), entries, names[..k], name, from, to);
        if At(from, name) in entries {
          ok := Replace(At(from, name), At(to, name));
          MorePartlyBack(old(entries), steps, entries, names, k + 1, from, to);
          steps := steps + [entries];
        }
      }
      assert names[..|names|] == names;
    }

    /** Puts the staged pair into place and syncs. */
    method Install() returns (ok: bool, installed: seq<StateName>)
      requires StagedDatabase in entries && At(Stage, Images) in entries && At(Stage, Database) !in entries
      requires Nothing(entries, Live)
      modifies this
      ensures ok <==> !(0 <= old(fault) <= 2)
      ensures ok ==>
                && SameEntry(old(entries), StagedDatabase, entries, At(Live, Database))
                && SameEntry(old(entries), At(Stage, Images), entries, At(Live, Images))
                && At(Live, Wal) !in entries && At(Live, Shm) !in entries
      ensures !ok ==> fault < 0
      ensures forall n :: n in installed <==> At(Live, n) in entries
      ensures forall n :: n in installed ==> At(Stage, n) !in entries
      ensures SameState(old(entries), Prior, entries, Prior) && SameState(old(entries), Aside, entries, Aside)
      ensures KeepsPrior(old(entries), entries)
      ensures overwrote == old(overwrote)
      ensures exists steps :: history == old(history) + steps && AllKeepPrior(old(entries), steps)
    {
      installed := [];
      ok := Replace(StagedDatabase, At(Live, Database));
      if !ok {
        assert history == old(history) + [] && AllKeepPrior(old(entries), []);
        return;
      }
      ghost var first := [entries];
      assert history == old(history) + first && AllKeepPrior(old(entries), first);
      installed := installed + [Database];
      ok := Replace(At(Stage, Images), At(Live, Images));
      if !ok {
        return;
      }
      assert history == old(history) + (first + [entries]) && AllKeepPrior(old(entries), first + [entries]);
      installed := installed + [Images];
      ok := Touch();
    }

    /** The renames of a restore: the old state to the prior directory, then the
        staged pair into place, then a sync. A fault undoes what was done. */
    method ApplyStagedRestore() returns (ok: bool)
      requires StagedDatabase in entries && At(Stage, Images) in entries && At(Stage, Database) !in entries
      requires Nothing(entries, Prior) && !overwrote
      modifies this
      ensures ok <==> !(0 <= old(fault) <= 3 + Count(old(entries), Live))
      ensures ok ==>
                && SameState(old(entries), Live, entries, Prior)
                && SameEntry(old(entries), StagedDatabase, entries, At(Live, Database))
                && SameEntry(old(entries), At(Stage, Images), entries, At(Live, Images))
                && At(Live, Wal) !in entries && At(Live, Shm) !in entries
      ensures !ok ==> SameState(old(entries), Live, entries, Live) && Nothing(entries, Prior)
      ensures SameState(old(entries), Aside, entries, Aside)
      ensures !overwrote
      ensures exists steps :: history == old(history) + steps && AllPreserve(old(entries), steps)
    {
      ok := Touch();
      if !ok {
        assert history == old(history) + [] && AllPreserve(old(entries), []);
        return;
      }
      hide AllPreserve, AllPartlyShifted, AllKeepPrior, MayReplace, ShiftedNames, CountBelow;
      ghost var start := entries;
      var moved: seq<StateName>;
      ghost var reached: nat;
      ok, moved, reached := MoveAll(Live, Prior);
      ghost var s1 :| history == old(history) + s1 && AllPartlyShifted(start, s1, Live, Prior);
      ShiftPreserves(start, s1);
      CountGrows(start, Live, if ok then 4 else reached + 1, 4);
      ghost var shifted := entries;
      assert SameEntry(start, StagedDatabase, shifted, StagedDatabase);
      assert SameEntry(start, At(Stage, Database), shifted, At(Stage, Database));
      assert SameEntry(start, At(Stage, Images), shifted, At(Stage, Images));
      NextTargetIsFree(start, shifted, Live, Prior, reached);
      if ok {
        FullShift(start, shifted, Live, Prior);
        ok := InstallOrUndo(start, moved, s1);
      } else {
        Undo(start, shifted, moved, [], reached, s1);
      }
    }

    /** The second half of a restore, with the old state under prior. */
    method InstallOrUndo(ghost start: Entries, moved: seq<StateName>, ghost steps: seq<Entries>) returns (ok: bool)
      requires StagedDatabase in entries && At(Stage, Images) in entries && At(Stage, Database) !in entries
      requires Shifted(start, entries, Live, Prior, 4) && Nothing(start, Prior)
      requires SameState(start, Live, entries, Prior) && Nothing(entries, Live)
      requires forall n :: n in moved <==> At(Live, n) in start
      requires AllPreserve(start, steps)
      modifies this
      ensures ok <==> !(0 <= old(fault) <= 2)
      ensures ok ==>
                && SameState(start, Live, entries, Prior)
                && SameEntry(old(entries), StagedDatabase, entries, At(Live, Database))
                && SameEntry(old(entries), At(Stage, Images), entries, At(Live, Images))
                && At(Live, Wal) !in entries && At(Live, Shm) !in entries
      ensures !ok ==> SameState(start, Live, entries, Live) && Nothing(entries, Prior)
      ensures SameState(start, Aside, entries, Aside)
      ensures overwrote == old(overwrote)
      ensures exists more :: history == old(history) + more && AllPreserve(start, steps + more)
    {
      hide AllPreserve, AllKeepPrior, ShiftedNames;
      ghost var shifted := entries;
      var installed: seq<StateName>;
      ok, installed := Install();
      ghost var s2 :| history == old(history) + s2 && AllKeepPrior(shifted, s2);
      KeptPriorPreserves(start, shifted, s2);
      AllPreserveConcat(start, steps, s2);
      if ok {
        SameStateTransitive(start, shifted, entries, Live, Prior, Prior);
        forall n ensures SameEntry(start, At(Aside, n), shifted, At(Aside, n)) {
        }
        SameStateTransitive(start, shifted, entries, Aside, Aside, Aside);
        return;
      }
      Undo(start, shifted, moved, installed, 4, steps + s2);
      ghost var s3 :| history == old(history) + s2 + s3 && AllPreserve(start, steps + s2 + s3);
      assert history == old(history) + (s2 + s3) && steps + s2 + s3 == steps + (s2 + s3);
    }

    /** The handler of a failed restore. */
    method Undo(
      ghost start: Entries, ghost shifted: Entries, moved: seq<StateName>, installed: seq<StateName>,
      ghost reached: nat, ghost steps: seq<Entries>)
      requires fault < 0 && ShiftedNames(start, shifted, Live, Prior, reached) && Nothing(start, Prior)
      requires Elsewhere(start, shifted, Live, Prior)
      requires forall n :: n in moved <==> Index(n) < reached && At(Live, n) in start
      requires SameState(shifted, Prior, entries, Prior) && SameState(shifted, Aside, entries, Aside)
      requires installed != [] ==> KeepsPrior(shifted, entries)
      requires forall n :: n !in installed ==> SameEntry(shifted, At(Live, n), entries, At(Live, n))
      requires forall n :: n in installed ==> At(Stage, n) !in entries && At(Live, n) !in shifted
      requires installed != [] ==> SameState(start, Live, shifted, Prior)
      requires AllPreserve(start, steps)
      modifies this
      ensures SameState(start, Live, entries, Live) && Nothing(entries, Prior)
      ensures SameState(start, Aside, entries, Aside)
      ensures overwrote == old(overwrote)
      ensures exists more :: history == old(history) + more && AllPreserve(start, steps + more)
    {
      ghost var before := entries;
      var back := MoveBack(installed, Live, Stage);
      ghost var s3 :| history == old(history) + s3 && AllPartlyBack(before, s3, installed, Live, Stage)
                      && (installed == [] ==> s3 == []);
      ghost var uninstalled := entries;
      forall n
        ensures SameEntry(shifted, At(Live, n), uninstalled, At(Live, n))
        ensures SameEntry(shifted, At(Prior, n), uninstalled, At(Prior, n))
      {
        assert SameEntry(before, At(Prior, n), uninstalled, At(Prior, n));
      }
      SameNamesStayShifted(start, shifted, uninstalled, Live, Prior, reached);
      UninstallPreserves(start, shifted, before, s3, installed);
      back := MoveBack(moved, Prior, Live);
      ghost var s4 :| history == old(history) + s3 + s4 && AllPartlyBack(uninstalled, s4, moved, Prior, Live);
      MovingHomePreserves(start, uninstalled, s4, moved, reached);
      ShiftUndone(start, uninstalled, entries, moved, Live, Prior, reached);
      AllPreserveConcat(start, s3, s4);
      AllPreserveConcat(start, steps, s3 + s4);
      assert history == old(history) + (s3 + s4);
      forall n ensures SameEntry(start, At(Aside, n), entries, At(Aside, n)) {
        assert SameEntry(start, At(Aside, n), shifted, At(Aside, n));
        assert SameEntry(shifted, At(Aside, n), before, At(Aside, n));
        assert SameEntry(before, At(Aside, n), uninstalled, At(Aside, n));
        assert SameEntry(uninstalled, At(Aside, n), entries, At(Aside, n));
      }
    }

    /** rmtree of a directory. */
    method Clear(place: Place)
      modifies this`entries
      ensures Nothing(entries, place)
      ensures forall p: Path :: p == StagedDatabase || p.place != place ==> SameEntry(old(entries), p, entries, p)
    {
      entries := map p | p in entries && (p == StagedDatabase || p.place != place) :: entries[p];
    }

    /** Both side directories go once the prior state lives. */
    method ClearSides()
      modifies this`entries
      ensures SameState(old(entries), Live, entries, Live)
      ensures Nothing(entries, Prior) && Nothing(entries, Aside)
    {
      Clear(Prior);
      ghost var cleared := entries;
      Clear(Aside);
      forall n ensures SameEntry(old(entries), At(Live, n), entries, At(Live, n)) && At(Prior, n) !in entries {
        assert SameEntry(old(entries), At(Live, n), cleared, At(Live, n));
        assert SameEntry(cleared, At(Prior, n), entries, At(Prior, n));
      }
    }

    /** Returns the live directory to the state under the prior directory. The
        operations, in order: a directory, the live entries out, the prior
        entries in, ownership if asked for, a sync. */
    method RollbackRestore(owned: bool) returns (result: Rollback)
      requires Typed(entries) && Nothing(entries, Aside)
      modifies this
      ensures result == Refused <==> At(Prior, Database) !in old(entries)
      ensures result == NotStarted <==> result != Refused && old(fault) == 0
      ensures result == FaultMovingOut <==> result != Refused && 1 <= old(fault) <= Count(old(entries), Live)
      ensures result == FaultLater <==>
                && result != Refused
                && Count(old(entries), Live) < old(fault) <= LastOperation(old(entries), owned)
      ensures result == Done <==>
                At(Prior, Database) in old(entries) && !(0 <= old(fault) <= LastOperation(old(entries), owned))
      ensures result == Done ==>
                && SameState(old(entries), Prior, entries, Live)
                && Nothing(entries, Prior) && Nothing(entries, Aside)
      ensures result.Refused? || result.NotStarted? ==> entries == old(entries)
      ensures result == FaultLater ==>
                && SameState(old(entries), Live, entries, Live)
                && SameState(old(entries), Prior, entries, Prior)
                && Nothing(entries, Aside)
      ensures result == FaultMovingOut ==>
                ((&& SameState(old(entries), Live, entries, Live)
                  && SameState(old(entries), Prior, entries, Prior)) <==> OnlyImagesAtStake(old(entries)))
      ensures result == FaultMovingOut && old(fault) == 1 && At(Live, Database) in old(entries) ==>
                SameEntry(old(entries), At(Live, Database), entries, At(Prior, Database))
    {
      hide MayReplace, ShiftedNames, Elsewhere, AllPartlyShifted, SameState, Nothing, Typed, SameEntry;
      hide OnlyImagesAtStake;
      if At(Prior, Database) !in entries {
        return Refused;
      }
      var ok := Touch();
      if !ok {
        return NotStarted;
      }
      ghost var start := entries;
      var moved: seq<StateName>;
      ghost var reached: nat;
      ok, moved, reached := MoveAll(Live, Aside);
      MoveFaults(start, entries, Live, Aside, reached, ok);
      if !ok {
        CompensateEarly(start, moved, reached);
        assert STATE_NAMES[0] == Database;
        return FaultMovingOut;
      }
      FullShift(start, entries, Live, Aside);
      OtherCountsStay(start, entries, Live, Aside, Prior);
      result := Reinstate(start, moved, owned);
    }

    /** The second half of a rollback, once nothing lives any more. */
    method Reinstate(ghost start: Entries, moved: seq<StateName>, owned: bool) returns (result: Rollback)
      requires Shifted(start, entries, Live, Aside, 4) && Nothing(start, Aside) && Nothing(entries, Live)
      requires SameState(start, Live, entries, Aside)
      requires forall n :: n in moved <==> At(Live, n) in start
      modifies this
      ensures result == if 0 <= old(fault) <= Count(old(entries), Prior) + (if owned then 1 else 0) then FaultLater
                        else Done
      ensures result == Done ==>
                && SameState(start, Prior, entries, Live)
                && Nothing(entries, Prior) && Nothing(entries, Aside)
      ensures result == FaultLater ==>
                && SameState(start, Live, entries, Live)
                && SameState(start, Prior, entries, Prior)
                && Nothing(entries, Aside)
    {
      hide MayReplace, ShiftedNames, SameState, Nothing, SameEntry;
      ghost var emptied := entries;
      PriorStays(start, emptied);
      ghost var reached: nat;
      var ok;
      ok, reached := BringBack(owned);
      if ok {
        FullShift(emptied, entries, Prior, Live);
        ghost var placed := entries;
        ClearSides();
        SameStateTransitive(emptied, placed, entries, Prior, Live, Live);
        SameStateTransitive(start, emptied, entries, Prior, Prior, Live);
        return Done;
      }
      PutBack(start, emptied, moved, reached);
      return FaultLater;
    }

    /** The prior entries into place, ownership, and the sync. */
    method BringBack(owned: bool) returns (ok: bool, ghost reached: nat)
      requires Nothing(entries, Live)
      modifies this
      ensures ok <==> !(0 <= old(fault) <= Count(old(entries), Prior) + (if owned then 1 else 0))
      ensures ok ==> reached == 4
      ensures !ok ==> fault < 0
      ensures reached <= 4 && Shifted(old(entries), entries, Prior, Live, reached)
    {
      hide MayReplace, Shifted, ShiftedNames, Nothing, SameEntry, AllPartlyShifted;
      var installed: seq<StateName>;
      ok, installed, reached := MoveAll(Prior, Live);
      MoveFaults(old(entries), entries, Prior, Live, reached, ok);
      if ok && owned {
        ok := Touch();
      }
      if ok {
        ok := Touch();
      }
    }

    /** The handler after a later fault: what was brought in goes back under
        prior, and what was set aside comes home. */
    method PutBack(ghost start: Entries, ghost emptied: Entries, moved: seq<StateName>, ghost reached: nat)
      requires fault < 0 && reached <= 4 && Shifted(emptied, entries, Prior, Live, reached) && Nothing(emptied, Live)
      requires SameState(start, Live, emptied, Aside) && SameState(start, Prior, emptied, Prior)
      requires forall n :: n in moved <==> At(Live, n) in start
      modifies this
      ensures SameState(start, Live, entries, Live) && SameState(start, Prior, entries, Prior)
      ensures Nothing(entries, Aside)
    {
      hide MayReplace, ShiftedNames, SameState, SameEntry, AllPartlyShifted;
      ghost var placed := entries;
      var ok, swept: seq<StateName>;
      ghost var reached': nat;
      ok, swept, reached' := MoveAll(Live, Prior);
      ghost var returned := entries;
      SweepMeetsNothing(emptied, placed, returned, reached, reached');
      ThereAndBack(emptied, placed, returned, Prior, Live, reached);
      AsideStays(emptied, placed, returned);
      SameStateTransitive(start, emptied, returned, Live, Aside, Aside);
      SameStateTransitive(start, emptied, returned, Prior, Prior, Prior);
      assert forall n :: At(Live, n) !in returned;
      var back := MoveBack(moved, Aside, Live);
      AsideComesHome(start, returned, entries, moved);
      PriorStaysWhenHome(returned, entries, moved);
      SameStateTransitive(start, returned, entries, Prior, Prior, Prior);
    }

    /** The handler after a fault in the middle of moving out. */
    method CompensateEarly(ghost start: Entries, moved: seq<StateName>, ghost k: nat)
      requires fault < 0 && k < 4 && Typed(start) && Nothing(start, Aside)
      requires Shifted(start, entries, Live, Aside, k) && At(Live, STATE_NAMES[k]) in entries
      requires forall n :: n in moved <==> Index(n) < k && At(Live, n) in start
      modifies this
      ensures (SameState(start, Live, entries, Live) && SameState(start, Prior, entries, Prior)) <==>
              OnlyImagesAtStake(start)
      ensures k == 0 ==> SameEntry(start, At(Live, Database), entries, At(Prior, Database))
    {
      ghost var struck := entries;
      var ok, swept: seq<StateName>;
      ghost var reached: nat;
      ok, swept, reached := MoveAll(Live, Prior);
      StruckEntryLeaves(start, struck, entries, k, reached, swept);
      if !ok {
        return;
      }
      ghost var mid := entries;
      var back := MoveBack(moved, Aside, Live);
      var x := STATE_NAMES[k];
      assert SameEntry(mid, At(Live, x), entries, At(Live, x));
      assert !SameEntry(start, At(Live, x), entries, At(Live, x));
      assert SameEntry(mid, At(Prior, x), entries, At(Prior, x));
    }

    /** The application runs on the live directory and leaves anything there. */
    method Application(changes: map<StateName, Content>)
      modifies this`entries
      ensures forall n ::
                (At(Live, n) in entries <==> n in changes) && (n in changes ==> entries[At(Live, n)] == changes[n])
      ensures forall p: Path :: p == StagedDatabase || p.place != Live ==> SameEntry(old(entries), p, entries, p)
      ensures SameState(old(entries), Prior, entries, Prior) && SameState(old(entries), Aside, entries, Aside)
    {
      entries := (map p | p in entries && (p == StagedDatabase || p.place != Live) :: entries[p])
        + (map n | n in changes :: At(Live, n) := changes[n]);
    }

    /** Rollback inverts restore, whatever the application did in between: the
        four names are exactly what they were, sidecars included. A fault after
        the move-out leaves the application's state live and the old one prior. */
    method RestoreThenRollback(changes: map<StateName, Content>, faultLater: int, owned: bool)
      returns (restored: bool, result: Rollback)
      requires StagedDatabase in entries && At(Stage, Images) in entries && At(Stage, Database) !in entries
      requires Nothing(entries, Prior) && Nothing(entries, Aside) && !overwrote
      requires At(Live, Database) in entries && Typed(entries)
      requires forall n :: n in changes ==> (changes[n].Folder? <==> n == Images)
      modifies this
      ensures restored <==> !(0 <= old(fault) <= 3 + Count(old(entries), Live))
      ensures !restored ==> SameState(old(entries), Live, entries, Live)
      ensures restored ==>
                var last := |changes| + Count(old(entries), Live) + 1 + (if owned then 1 else 0);
                && (result.Done? <==> !(0 <= faultLater <= last))
                && (result.NotStarted? <==> faultLater == 0)
                && (result.FaultMovingOut? <==> 1 <= faultLater <= |changes|)
                && (result.FaultLater? <==> |changes| < faultLater <= last)
      ensures restored && result.Done? ==> SameState(old(entries), Live, entries, Live) && Nothing(entries, Prior)
      ensures restored && (result.FaultLater? || result.NotStarted?) ==>
                && SameState(old(entries), Live, entries, Prior)
                && (forall n :: At(Live, n) in entries <==> n in changes)
                && (forall n :: n in changes ==> entries[At(Live, n)] == changes[n])
    {
      hide SameState, Nothing, SameEntry, AllPreserve, OnlyImagesAtStake, CountBelow, Typed;
      ghost var start := entries;
      restored := ApplyStagedRestore();
      if !restored {
        return restored, NotStarted;
      }
      ghost var after := entries;
      Application(changes);
      ghost var lived := entries;
      fault := faultLater;
      Lived(start, after, lived, changes);
      result := RollbackRestore(owned);
      if result.Done? {
        SameStateTransitive(start, lived, entries, Live, Prior, Live);
      } else if result.FaultLater? {
        SameStateTransitive(start, lived, entries, Live, Prior, Prior);
        StillLives(lived, entries, changes);
      }
    }
  }
}
