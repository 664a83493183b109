/** How backups find, claim and give back archive names while several of them
    write to one directory. */
module Naming {
  import opened Wrappers
  import opened Numbers

  // ------------------------------------------------------------- the name search

  /** The names tried for one timestamp: plain, then numbered from 2. */
  function Candidate(stem: string, suffix: string, number: nat): string {
    if number <= 1 then stem + suffix else stem + "-" + Print(number) + suffix
  }

  lemma FirstCandidates(stem: string, suffix: string)
    ensures Candidate(stem, suffix, 1) == stem + suffix
    ensures Candidate(stem, suffix, 2) == stem + "-2" + suffix
    ensures Candidate(stem, suffix, 10) == stem + "-10" + suffix
  {
    assert Print(10) == Print(1) + [Digit(0)];
  }

  lemma CandidatesDiffer(stem: string, suffix: string, m: nat, n: nat)
    requires 1 <= m && 1 <= n && Candidate(stem, suffix, m) == Candidate(stem, suffix, n)
    ensures m == n
  {
    MiddleOfCandidate(stem, suffix, m);
    MiddleOfCandidate(stem, suffix, n);
    if m > 1 && n > 1 {
      assert ("-" + Print(m))[1..] == Print(m) && ("-" + Print(n))[1..] == Print(n);
      PrintIsInjective(m, n);
    }
  }

  lemma MiddleOfCandidate(stem: string, suffix: string, n: nat)
    ensures var c := Candidate(stem, suffix, n);
            |c| >= |stem| + |suffix| && c[|stem|..|c| - |suffix|] == if n <= 1 then "" else "-" + Print(n)
  {
  }

  /** Finitely many names exist, so some candidate is free. */
  lemma {:induction false} TakenAtMostAll(stem: string, suffix: string, names: set<string>, count: nat)
    requires forall m :: 1 <= m <= count ==> Candidate(stem, suffix, m) in names
    ensures count <= |names|
  {
    if count > 0 {
      var last := Candidate(stem, suffix, count);
      forall m | 1 <= m <= count - 1 ensures Candidate(stem, suffix, m) in names - {last} {
        if Candidate(stem, suffix, m) == last { CandidatesDiffer(stem, suffix, m, count); }
      }
      TakenAtMostAll(stem, suffix, names - {last}, count - 1);
    }
  }

  /** The first free name, whatever names exist. */
  method NextUnused(stem: string, suffix: string, names: set<string>) returns (candidate: string, ghost first: nat)
    ensures candidate !in names
    ensures first >= 1 && candidate == Candidate(stem, suffix, first)
    ensures forall m :: 1 <= m < first ==> Candidate(stem, suffix, m) in names
  {
    candidate := stem + suffix;
    var number := 2;
    while candidate in names
      invariant number >= 2 && candidate == Candidate(stem, suffix, number - 1)
      invariant forall m :: 1 <= m < number - 1 ==> Candidate(stem, suffix, m) in names
      decreases |names| + 2 - number
    {
      TakenAtMostAll(stem, suffix, names, number - 1);
      candidate := stem + "-" + Print(number) + suffix;
      number := number + 1;
    }
    first := number - 1;
  }

  // ------------------------------------------------------ backups sharing a root

  const SUFFIX := ".tar.gz"

  type Actor = nat
  type Bytes = string

  /** `Temp` is the hidden file `.<name>.tmp-<pid>` the archive is written to. */
  datatype Entry = Final(name: string) | Temp(name: string, pid: nat)

  /** `Reserved` to `Unlinked` are the body and the cleanup of create_backup. A
      crashed backup, or one whose cleanup raised, leaves its files behind. */
  datatype Phase =
    | Probing(number: nat)
    | Trying(free: string)
    | Reserved(name: string)
    | Written(name: string)
    | Verified(name: string)
    | Unwinding(name: string, committed: bool)
    | Unlinked(name: string, committed: bool)
    | Done(published: Option<string>)
    | Crashed(left: Option<string>)

  datatype Backup = Backup(stem: string, pid: nat, phase: Phase)

  datatype State = State(root: map<Entry, Bytes>, backups: map<Actor, Backup>)

  datatype Action =
    | Begin(stem: string, pid: nat)
    | Probe
    | Reserve(nothing: Bytes)
    | Write(archive: Bytes, whole: bool)
    | Fail
    | Verify
    | Replace(ok: bool)
    | UnlinkTemp
    | UnlinkFinal
    | Crash

  function Held(phase: Phase): Option<string> {
    match phase
    case Probing(_) => None
    case Trying(_) => None
    case Done(published) => published
    case Crashed(left) => left
    case _ => Some(phase.name)
  }

  function To(s: State, a: Actor, phase: Phase): State
    requires a in s.backups
  {
    s.(backups := s.backups[a := s.backups[a].(phase := phase)])
  }

  /** One step of one backup; `accepts` is what verify_backup accepts. */
  function Act(accepts: Bytes -> bool, s: State, a: Actor, act: Action): State {
    if act.Begin? then
      if a in s.backups then s else s.(backups := s.backups[a := Backup(act.stem, act.pid, Probing(1))])
    else if a !in s.backups || s.backups[a].phase.Done? || s.backups[a].phase.Crashed? then s
    else
      var b := s.backups[a];
      match (b.phase, act)
      case (_, Crash) => To(s, a, Crashed(Held(b.phase)))
      case (Probing(number), Probe) =>
        var candidate := Candidate(b.stem, SUFFIX, number);
        To(s, a, if Final(candidate) in s.root then Probing(number + 1) else Trying(candidate))
      case (Trying(free), Reserve(nothing)) =>
        if Final(free) in s.root then To(s, a, Probing(1))
        else To(s, a, Reserved(free)).(root := s.root[Final(free) := nothing])
      case (Reserved(name), Write(archive, whole)) =>
        To(s, a, if whole then Written(name) else Unwinding(name, false)).(root := s.root[Temp(name, b.pid) := archive])
      case (Reserved(name), Fail) => To(s, a, Unwinding(name, false))
      case (Written(name), Fail) => To(s, a, Unwinding(name, false))
      case (Written(name), Verify) =>
        if Temp(name, b.pid) in s.root && accepts(s.root[Temp(name, b.pid)]) then To(s, a, Verified(name))
        else To(s, a, Unwinding(name, false))
      case (Verified(name), Replace(ok)) =>
        if ok && Temp(name, b.pid) in s.root
        then To(s, a, Unwinding(name, true)).(
               root := s.root[Final(name) := s.root[Temp(name, b.pid)]] - {Temp(name, b.pid)})
        else To(s, a, Unwinding(name, false))
      case (Unwinding(name, committed), UnlinkTemp) =>
        To(s, a, Unlinked(name, committed)).(root := s.root - {Temp(name, b.pid)})
      case (Unlinked(name, committed), UnlinkFinal) =>
        if committed then To(s, a, Done(Some(name)))
        else To(s, a, Done(None)).(root := s.root - {Final(name)})
      case _ => s
  }

  predicate Holds(s: State, a: Actor, name: string) {
    a in s.backups && Held(s.backups[a].phase) == Some(name)
  }

  /** The name under which a backup has a verified archive, or is about to. */
  predicate Committed(phase: Phase, name: string) {
    || phase == Unwinding(name, true) || phase == Unlinked(name, true) || phase == Done(Some(name))
  }

  /** A name has at most one holder, who alone made it. */
  ghost predicate Exclusive(before: map<Entry, Bytes>, s: State) {
    && (forall a, b, name :: Holds(s, a, name) && Holds(s, b, name) ==> a == b)
    && (forall a, name :: Holds(s, a, name) ==> Final(name) in s.root && Final(name) !in before)
  }

  /** What was there stays; what is new has a holder. */
  ghost predicate Accounted(before: map<Entry, Bytes>, s: State) {
    && (forall name :: Final(name) in before ==> Final(name) in s.root && s.root[Final(name)] == before[Final(name)])
    && (forall name :: Final(name) in s.root && Final(name) !in before ==> exists a :: Holds(s, a, name))
  }

  /** A verified temporary file is still the one that was verified, and a
      committed name holds such a file. */
  ghost predicate Certified(accepts: Bytes -> bool, s: State, a: Actor) {
    a in s.backups ==>
      var b := s.backups[a];
      && (b.phase.Verified? ==>
            Temp(b.phase.name, b.pid) in s.root && accepts(s.root[Temp(b.phase.name, b.pid)]))
      && (forall name :: Committed(b.phase, name) ==> Final(name) in s.root && accepts(s.root[Final(name)]))
  }

  predicate UsesTemp(s: State, a: Actor, name: string, pid: nat) {
    && Holds(s, a, name) && s.backups[a].pid == pid
    && !s.backups[a].phase.Done? && !s.backups[a].phase.Unlinked?
  }

  /** A temporary file is left over from before, or in some backup's use. */
  ghost predicate TempsAccounted(before: map<Entry, Bytes>, s: State) {
    forall name, pid :: Temp(name, pid) in s.root && Temp(name, pid) !in before ==>
      exists a :: UsesTemp(s, a, name, pid)
  }

  ghost predicate Sound(accepts: Bytes -> bool, before: map<Entry, Bytes>, s: State) {
    && Exclusive(before, s) && Accounted(before, s) && TempsAccounted(before, s)
    && forall a :: Certified(accepts, s, a)
  }

  /** A step touches no name that another backup holds, or that was there. */
  ghost predicate OthersKept(s: State, s': State, a: Actor) {
    forall name :: Final(name) in s.root && !Holds(s, a, name) ==>
      Final(name) in s'.root && s'.root[Final(name)] == s.root[Final(name)]
  }

  /** Holding begins only with an exclusive creation, and ends only with the
      removal of the name. */
  lemma HoldingChanges(accepts: Bytes -> bool, s: State, a: Actor, act: Action, b: Actor, name: string)
    ensures var s' := Act(accepts, s, a, act);
            && (Holds(s', b, name) && !Holds(s, b, name) ==> b == a && Final(name) !in s.root && Final(name) in s'.root)
            && (Holds(s, b, name) && !Holds(s', b, name) ==> b == a && Final(name) !in s'.root)
  {
  }

  /** Another's step leaves every final name but its own as it was. */
  lemma FinalNames(accepts: Bytes -> bool, s: State, a: Actor, act: Action, name: string)
    ensures var s' := Act(accepts, s, a, act);
            && (Final(name) in s.root && !Holds(s, a, name) ==>
                  Final(name) in s'.root && s'.root[Final(name)] == s.root[Final(name)])
            && (Final(name) in s'.root && Final(name) !in s.root ==> Holds(s', a, name))
            && (Final(name) in s.root && Final(name) !in s'.root ==> !Holds(s', a, name))
  {
  }

  lemma StepKeepsExclusive(accepts: Bytes -> bool, before: map<Entry, Bytes>, s: State, a: Actor, act: Action)
    requires Exclusive(before, s) && Accounted(before, s)
    ensures Exclusive(before, Act(accepts, s, a, act))
    ensures OthersKept(s, Act(accepts, s, a, act), a)
  {
    hide Act, Holds;
    var s' := Act(accepts, s, a, act);
    forall b, c, name | Holds(s', b, name) && Holds(s', c, name)
      ensures b == c
    {
      HoldingChanges(accepts, s, a, act, b, name);
      HoldingChanges(accepts, s, a, act, c, name);
    }
    forall b, name | Holds(s', b, name)
      ensures Final(name) in s'.root && Final(name) !in before
    {
      HoldingChanges(accepts, s, a, act, b, name);
      FinalNames(accepts, s, a, act, name);
      if b != a { assert Holds(s, b, name) ==> !Holds(s, a, name); }
    }
    forall name | Final(name) in s.root && !Holds(s, a, name)
      ensures Final(name) in s'.root && s'.root[Final(name)] == s.root[Final(name)]
    {
      FinalNames(accepts, s, a, act, name);
    }
  }

  lemma StepKeepsAccounted(accepts: Bytes -> bool, before: map<Entry, Bytes>, s: State, a: Actor, act: Action)
    requires Exclusive(before, s) && Accounted(before, s)
    ensures Accounted(before, Act(accepts, s, a, act))
  {
    hide Act, Holds;
    var s' := Act(accepts, s, a, act);
    forall name | Final(name) in s'.root && Final(name) !in before
      ensures exists b :: Holds(s', b, name)
    {
      FinalNames(accepts, s, a, act, name);
      if Final(name) in s.root {
        var b :| Holds(s, b, name);
        HoldingChanges(accepts, s, a, act, b, name);
      }
    }
    forall name | Final(name) in before
      ensures Final(name) in s'.root && s'.root[Final(name)] == before[Final(name)]
    {
      FinalNames(accepts, s, a, act, name);
    }
  }

  lemma StepKeepsTemps(accepts: Bytes -> bool, before: map<Entry, Bytes>, s: State, a: Actor, act: Action)
    requires Exclusive(before, s) && TempsAccounted(before, s)
    ensures TempsAccounted(before, Act(accepts, s, a, act))
  {
    var s' := Act(accepts, s, a, act);
    forall name, pid | Temp(name, pid) in s'.root && Temp(name, pid) !in before
      ensures exists b :: UsesTemp(s', b, name, pid)
    {
      if Temp(name, pid) in s.root {
        var b :| UsesTemp(s, b, name, pid);
        assert UsesTemp(s', b, name, pid);
      } else {
        assert UsesTemp(s', a, name, pid);
      }
    }
  }

  lemma OwnStepKeepsCertified(accepts: Bytes -> bool, s: State, a: Actor, act: Action)
    requires Certified(accepts, s, a)
    ensures Certified(accepts, Act(accepts, s, a, act), a)
  {
  }

  /** A step changes no temporary file of another name. */
  lemma TempFiles(accepts: Bytes -> bool, s: State, a: Actor, act: Action, name: string, pid: nat)
    requires !Holds(s, a, name)
    ensures var s' := Act(accepts, s, a, act);
            Temp(name, pid) in s.root ==>
              Temp(name, pid) in s'.root && s'.root[Temp(name, pid)] == s.root[Temp(name, pid)]
  {
  }

  lemma StepKeepsCertified(accepts: Bytes -> bool, before: map<Entry, Bytes>, s: State, a: Actor, act: Action, b: Actor)
    requires Exclusive(before, s) && Certified(accepts, s, b)
    ensures Certified(accepts, Act(accepts, s, a, act), b)
  {
    if a == b {
      OwnStepKeepsCertified(accepts, s, a, act);
    } else if b in s.backups {
      OthersPhase(accepts, s, a, act, b);
      hide Act;
      var held := Held(s.backups[b].phase);
      if held.Some? {
        assert Holds(s, b, held.value) && !Holds(s, a, held.value);
        FinalNames(accepts, s, a, act, held.value);
        TempFiles(accepts, s, a, act, held.value, s.backups[b].pid);
      }
    } else {
      OthersPhase(accepts, s, a, act, b);
    }
  }

  lemma OthersPhase(accepts: Bytes -> bool, s: State, a: Actor, act: Action, b: Actor)
    requires a != b
    ensures var s' := Act(accepts, s, a, act);
            (b in s'.backups <==> b in s.backups) && (b in s.backups ==> s'.backups[b] == s.backups[b])
  {
  }

  lemma StepIsSound(accepts: Bytes -> bool, before: map<Entry, Bytes>, s: State, a: Actor, act: Action)
    requires Sound(accepts, before, s)
    ensures Sound(accepts, before, Act(accepts, s, a, act))
    ensures OthersKept(s, Act(accepts, s, a, act), a)
  {
    hide Exclusive, Accounted, TempsAccounted, Certified, Act, OthersKept;
    StepKeepsExclusive(accepts, before, s, a, act);
    StepKeepsAccounted(accepts, before, s, a, act);
    StepKeepsTemps(accepts, before, s, a, act);
    forall b ensures Certified(accepts, Act(accepts, s, a, act), b) {
      StepKeepsCertified(accepts, before, s, a, act, b);
    }
  }

  // ------------------------------------------------------------------ whole runs

  datatype Turn = Turn(a: Actor, act: Action)

  function Run(accepts: Bytes -> bool, s: State, turns: seq<Turn>): State {
    if turns == [] then s
    else
      var last := turns[|turns| - 1];
      Act(accepts, Run(accepts, s, turns[..|turns| - 1]), last.a, last.act)
  }

  lemma {:induction false} RunIsSound(accepts: Bytes -> bool, root: map<Entry, Bytes>, turns: seq<Turn>)
    ensures Sound(accepts, root, Run(accepts, State(root, map[]), turns))
  {
    if turns != [] {
      var init, last := turns[..|turns| - 1], turns[|turns| - 1];
      RunIsSound(accepts, root, init);
      StepIsSound(accepts, root, Run(accepts, State(root, map[]), init), last.a, last.act);
    }
  }

  /** No backup, however it ends, overwrites or removes a name that was there
      before the run or that another backup holds. */
  lemma NoOneElsesArchive(accepts: Bytes -> bool, root: map<Entry, Bytes>, turns: seq<Turn>, k: nat, name: string)
    requires k < |turns|
    ensures var s := Run(accepts, State(root, map[]), turns[..k]);
            var s' := Run(accepts, State(root, map[]), turns[..k + 1]);
            && (Final(name) in root ==> Final(name) in s.root && s.root[Final(name)] == root[Final(name)])
            && (forall b :: Holds(s, b, name) && b != turns[k].a ==>
                  Final(name) in s.root && Final(name) in s'.root && s'.root[Final(name)] == s.root[Final(name)])
  {
    var s := Run(accepts, State(root, map[]), turns[..k]);
    assert turns[..k + 1][..k] == turns[..k];
    RunIsSound(accepts, root, turns[..k]);
    StepIsSound(accepts, root, s, turns[k].a, turns[k].act);
    hide Act;
    forall b | Holds(s, b, name) && b != turns[k].a
      ensures !Holds(s, turns[k].a, name)
    {
    }
  }

  ghost predicate AllDone(s: State) {
    forall a :: a in s.backups ==> s.backups[a].phase.Done?
  }

  predicate Published(s: State, a: Actor, name: string) {
    a in s.backups && s.backups[a].phase == Done(Some(name))
  }

  /** Each name is an old one, untouched, or holds a verified archive published
      by exactly one backup; no temporary file is new. */
  ghost predicate Clean(accepts: Bytes -> bool, root: map<Entry, Bytes>, s: State) {
    && (forall name :: Final(name) in root ==> Final(name) in s.root && s.root[Final(name)] == root[Final(name)])
    && (forall name :: Final(name) in s.root && Final(name) !in root ==>
          accepts(s.root[Final(name)]) && exists a :: Published(s, a, name))
    && (forall a, b, name :: Published(s, a, name) && Published(s, b, name) ==> a == b)
    && (forall name, pid :: Temp(name, pid) in s.root ==> Temp(name, pid) in root)
  }

  lemma AllDoneIsClean(accepts: Bytes -> bool, root: map<Entry, Bytes>, s: State)
    requires Sound(accepts, root, s) && AllDone(s)
    ensures Clean(accepts, root, s)
  {
    forall name | Final(name) in s.root && Final(name) !in root
      ensures accepts(s.root[Final(name)]) && exists a :: Published(s, a, name)
    {
      var a :| Holds(s, a, name);
      assert s.backups[a].phase.Done?;
      assert Certified(accepts, s, a) && Committed(s.backups[a].phase, name);
      assert Published(s, a, name);
    }
    forall a, b, name | Published(s, a, name) && Published(s, b, name)
      ensures a == b
    {
      assert Holds(s, a, name) && Holds(s, b, name);
    }
    forall name, pid | Temp(name, pid) in s.root
      ensures Temp(name, pid) in root
    {
      assert forall a :: !UsesTemp(s, a, name, pid);
    }
  }

  /** Once every backup has finished and none crashed, nothing half-written is
      left under any name. */
  lemma FinishedRoot(accepts: Bytes -> bool, root: map<Entry, Bytes>, turns: seq<Turn>)
    requires AllDone(Run(accepts, State(root, map[]), turns))
    ensures Clean(accepts, root, Run(accepts, State(root, map[]), turns))
  {
    RunIsSound(accepts, root, turns);
    AllDoneIsClean(accepts, root, Run(accepts, State(root, map[]), turns));
  }

  /** A published archive is never changed again. */
  lemma {:induction false} PublishedStays(
    accepts: Bytes -> bool, root: map<Entry, Bytes>, turns: seq<Turn>, k: nat, a: Actor, name: string)
    requires k <= |turns|
    requires var s := Run(accepts, State(root, map[]), turns[..k]);
             a in s.backups && Committed(s.backups[a].phase, name)
    ensures var s := Run(accepts, State(root, map[]), turns[..k]);
            var s' := Run(accepts, State(root, map[]), turns);
            Final(name) in s.root && Final(name) in s'.root && s'.root[Final(name)] == s.root[Final(name)]
    ensures var s' := Run(accepts, State(root, map[]), turns);
            a in s'.backups && (Committed(s'.backups[a].phase, name) || s'.backups[a].phase == Crashed(Some(name)))
  {
    if k == |turns| {
      assert turns[..k] == turns;
      RunIsSound(accepts, root, turns);
      assert Certified(accepts, Run(accepts, State(root, map[]), turns), a);
    } else {
      var init, last := turns[..|turns| - 1], turns[|turns| - 1];
      assert init[..k] == turns[..k];
      PublishedStays(accepts, root, init, k, a, name);
      var s := Run(accepts, State(root, map[]), init);
      RunIsSound(accepts, root, init);
      OwnCommitStays(accepts, s, a, last.act, name);
      hide Act;
      assert Holds(s, a, name);
      if last.a != a {
        OthersPhase(accepts, s, last.a, last.act, a);
        FinalNames(accepts, s, last.a, last.act, name);
      }
    }
  }

  lemma OwnCommitStays(accepts: Bytes -> bool, s: State, a: Actor, act: Action, name: string)
    requires a in s.backups && Final(name) in s.root
    requires Committed(s.backups[a].phase, name) || s.backups[a].phase == Crashed(Some(name))
    ensures var s' := Act(accepts, s, a, act);
            && Final(name) in s'.root && s'.root[Final(name)] == s.root[Final(name)]
            && a in s'.backups && (Committed(s'.backups[a].phase, name) || s'.backups[a].phase == Crashed(Some(name)))
  {
  }

  // -------------------------------------------------------------- publication

  /** A backup in the given phase after its replace, and its name holding the
      given bytes. */
  predicate Keeps(s: State, a: Actor, phase: Phase, name: string, data: Bytes) {
    && a in s.backups && s.backups[a].phase == phase && Committed(phase, name)
    && Final(name) in s.root && s.root[Final(name)] == data
  }

  lemma ReplacePublishes(accepts: Bytes -> bool, s: State, a: Actor, name: string)
    requires a in s.backups && s.backups[a].phase == Verified(name) && Certified(accepts, s, a)
    ensures var temp := Temp(name, s.backups[a].pid);
            && temp in s.root && accepts(s.root[temp])
            && Keeps(Act(accepts, s, a, Replace(true)), a, Unwinding(name, true), name, s.root[temp])
  {
  }

  lemma CleanupKeeps(accepts: Bytes -> bool, s: State, a: Actor, name: string, data: Bytes)
    ensures Keeps(s, a, Unwinding(name, true), name, data) ==>
              Keeps(Act(accepts, s, a, UnlinkTemp), a, Unlinked(name, true), name, data)
    ensures Keeps(s, a, Unlinked(name, true), name, data) ==>
              Keeps(Act(accepts, s, a, UnlinkFinal), a, Done(Some(name)), name, data)
  {
  }

  lemma OthersKeep(
    accepts: Bytes -> bool, root: map<Entry, Bytes>, s: State, t: Turn, a: Actor, phase: Phase, name: string,
    data: Bytes)
    requires Exclusive(root, s) && Keeps(s, a, phase, name, data) && t.a != a
    ensures Keeps(Act(accepts, s, t.a, t.act), a, phase, name, data)
  {
    OthersPhase(accepts, s, t.a, t.act, a);
    FinalNames(accepts, s, t.a, t.act, name);
    assert Holds(s, a, name);
  }

  /** Only other backups take turns from `from` up to `upto`. */
  predicate OthersOnly(turns: seq<Turn>, from: nat, upto: nat, a: Actor)
    requires from <= upto <= |turns|
  {
    forall m :: from <= m < upto ==> turns[m].a != a
  }

  lemma {:induction false} KeptWhileOthersRun(
    accepts: Bytes -> bool, root: map<Entry, Bytes>, turns: seq<Turn>, from: nat, upto: nat, a: Actor, phase: Phase,
    name: string, data: Bytes)
    requires from <= upto <= |turns| && OthersOnly(turns, from, upto, a)
    requires Keeps(Run(accepts, State(root, map[]), turns[..from]), a, phase, name, data)
    ensures Keeps(Run(accepts, State(root, map[]), turns[..upto]), a, phase, name, data)
  {
    if from < upto {
      hide Act, Exclusive, Keeps;
      KeptWhileOthersRun(accepts, root, turns, from, upto - 1, a, phase, name, data);
      assert turns[..upto][..upto - 1] == turns[..upto - 1];
      RunIsExclusive(accepts, root, turns[..upto - 1]);
      var s := Run(accepts, State(root, map[]), turns[..upto - 1]);
      OthersKeep(accepts, root, s, turns[upto - 1], a, phase, name, data);
    }
  }

  lemma RunNext(accepts: Bytes -> bool, s: State, turns: seq<Turn>, k: nat, t: Turn)
    requires k < |turns| && turns[k] == t
    ensures Run(accepts, s, turns[..k + 1]) == Act(accepts, Run(accepts, s, turns[..k]), t.a, t.act)
  {
    assert turns[..k + 1][..k] == turns[..k];
  }

  /** A verified backup that replaces and then cleans up is done with its name
      published, under the very bytes that were verified, whatever other
      backups do before, between and after. */
  lemma VerifiedIsPublished(
    accepts: Bytes -> bool, root: map<Entry, Bytes>, turns: seq<Turn>, k: nat, u: nat, v: nat, a: Actor, name: string)
    requires k < u < v < |turns|
    requires turns[k] == Turn(a, Replace(true)) && turns[u] == Turn(a, UnlinkTemp) && turns[v] == Turn(a, UnlinkFinal)
    requires OthersOnly(turns, k + 1, u, a) && OthersOnly(turns, u + 1, v, a) && OthersOnly(turns, v + 1, |turns|, a)
    requires var s := Run(accepts, State(root, map[]), turns[..k]);
             a in s.backups && s.backups[a].phase == Verified(name)
    ensures var s := Run(accepts, State(root, map[]), turns[..k]);
            var temp := Temp(name, s.backups[a].pid);
            var end := Run(accepts, State(root, map[]), turns);
            && temp in s.root && accepts(s.root[temp])
            && a in end.backups && end.backups[a].phase == Done(Some(name))
            && Final(name) in end.root && end.root[Final(name)] == s.root[temp]
  {
    var start := State(root, map[]);
    var s := Run(accepts, start, turns[..k]);
    assert Certified(accepts, s, a) by { RunIsSound(accepts, root, turns[..k]); }
    ReplacePublishes(accepts, s, a, name);
    var data := s.root[Temp(name, s.backups[a].pid)];
    PublishedAtEnd(accepts, root, turns, k, u, v, a, name, data);
  }

  lemma PublishedAtEnd(
    accepts: Bytes -> bool, root: map<Entry, Bytes>, turns: seq<Turn>, k: nat, u: nat, v: nat, a: Actor, name: string,
    data: Bytes)
    requires k < u < v < |turns|
    requires turns[k] == Turn(a, Replace(true)) && turns[u] == Turn(a, UnlinkTemp) && turns[v] == Turn(a, UnlinkFinal)
    requires OthersOnly(turns, k + 1, u, a) && OthersOnly(turns, u + 1, v, a) && OthersOnly(turns, v + 1, |turns|, a)
    requires Keeps(Act(accepts, Run(accepts, State(root, map[]), turns[..k]), a, Replace(true)), a,
                   Unwinding(name, true), name, data)
    ensures Keeps(Run(accepts, State(root, map[]), turns), a, Done(Some(name)), name, data)
  {
    hide Act, Run, Keeps, OthersOnly;
    var start := State(root, map[]);
    RunNext(accepts, start, turns, k, Turn(a, Replace(true)));
    KeptWhileOthersRun(accepts, root, turns, k + 1, u, a, Unwinding(name, true), name, data);
    CleanupKeeps(accepts, Run(accepts, start, turns[..u]), a, name, data);
    RunNext(accepts, start, turns, u, Turn(a, UnlinkTemp));
    KeptWhileOthersRun(accepts, root, turns, u + 1, v, a, Unlinked(name, true), name, data);
    CleanupKeeps(accepts, Run(accepts, start, turns[..v]), a, name, data);
    RunNext(accepts, start, turns, v, Turn(a, UnlinkFinal));
    KeptWhileOthersRun(accepts, root, turns, v + 1, |turns|, a, Done(Some(name)), name, data);
    assert turns[..|turns|] == turns;
  }

  /** A search that is not disturbed ends: after at most one probe more than
      there are entries it has the first free name. */
  lemma {:induction false} SearchEnds(accepts: Bytes -> bool, s: State, a: Actor, number: nat) returns (probes: nat)
    requires a in s.backups && s.backups[a].phase == Probing(number) && number >= 1
    requires forall m :: 1 <= m < number ==> Final(Candidate(s.backups[a].stem, SUFFIX, m)) in s.root
    ensures probes <= |s.root| + 2 - number
    ensures var s' := Run(accepts, s, seq(probes, _ => Turn(a, Probe)));
            var found := Candidate(s.backups[a].stem, SUFFIX, number + probes - 1);
            && probes > 0 && s' == To(s, a, Trying(found)) && Final(found) !in s.root
            && forall m :: 1 <= m < number + probes - 1 ==> Final(Candidate(s.backups[a].stem, SUFFIX, m)) in s.root
    decreases |s.root| + 2 - number
  {
    hide Run, Candidate;
    var stem := s.backups[a].stem;
    CandidatesFit(stem, s.root, number - 1);
    var probe := Turn(a, Probe);
    if Final(Candidate(stem, SUFFIX, number)) !in s.root {
      probes := 1;
      RunFirst(accepts, s, probe, []);
      RunNothing(accepts, Act(accepts, s, a, Probe));
      assert seq(1, _ => probe) == [probe] + [];
    } else {
      CandidatesFit(stem, s.root, number);
      var more := SearchEnds(accepts, Act(accepts, s, a, Probe), a, number + 1);
      probes := more + 1;
      RunFirst(accepts, s, probe, seq(more, _ => probe));
      assert seq(probes, _ => probe) == [probe] + seq(more, _ => probe);
    }
  }

  lemma RunNothing(accepts: Bytes -> bool, s: State)
    ensures Run(accepts, s, []) == s
  {
  }

  lemma CandidatesFit(stem: string, root: map<Entry, Bytes>, count: nat)
    requires forall m :: 1 <= m <= count ==> Final(Candidate(stem, SUFFIX, m)) in root
    ensures count <= |root|
  {
    var names := set e | e in root && e.Final? :: e.name;
    assert forall m :: 1 <= m <= count ==> Final(Candidate(stem, SUFFIX, m)) in root.Keys;
    forall m | 1 <= m <= count ensures Candidate(stem, SUFFIX, m) in names {
      assert Final(Candidate(stem, SUFFIX, m)) in root;
    }
    TakenAtMostAll(stem, SUFFIX, names, count);
    NamesFit(root.Keys);
  }

  lemma {:induction false} NamesFit(entries: set<Entry>)
    ensures |set e | e in entries && e.Final? :: e.name| <= |entries|
  {
    var names := set e | e in entries && e.Final? :: e.name;
    if entries != {} {
      var e :| e in entries;
      NamesFit(entries - {e});
      var fewer := set f | f in entries - {e} && f.Final? :: f.name;
      assert names == if e.Final? then fewer + {e.name} else fewer;
    }
  }

  lemma {:induction false} RunFirst(accepts: Bytes -> bool, s: State, first: Turn, turns: seq<Turn>)
    ensures Run(accepts, s, [first] + turns) == Run(accepts, Act(accepts, s, first.a, first.act), turns)
  {
    hide Act;
    if turns == [] {
      assert [first] + turns == [first] && [first][..0] == [];
    } else {
      var init := turns[..|turns| - 1];
      assert ([first] + turns)[..|turns|] == [first] + init;
      RunFirst(accepts, s, first, init);
    }
  }

  /** A claim that fails lost a race: another backup took the name after the
      search had found it free. */
  lemma {:induction false} FailedClaimLostRace(
    accepts: Bytes -> bool, root: map<Entry, Bytes>, turns: seq<Turn>, probed: nat, name: string) returns (k: nat)
    requires probed <= |turns|
    requires Final(name) !in Run(accepts, State(root, map[]), turns[..probed]).root
    requires Final(name) in Run(accepts, State(root, map[]), turns).root
    ensures probed <= k < |turns| && turns[k].act.Reserve?
    ensures var before := Run(accepts, State(root, map[]), turns[..k]);
            turns[k].a in before.backups && before.backups[turns[k].a].phase == Trying(name)
                && Final(name) !in before.root
  {
    assert turns[..|turns|] == turns;
    var init, last := turns[..|turns| - 1], turns[|turns| - 1];
    var before := Run(accepts, State(root, map[]), init);
    if Final(name) in before.root {
      assert init[..probed] == turns[..probed];
      k := FailedClaimLostRace(accepts, root, init, probed, name);
      assert init[..k] == turns[..k];
    } else {
      k := |init|;
      RunIsSound(accepts, root, init);
      CreatedByClaim(accepts, root, before, last.a, last.act, name);
    }
  }

  lemma CreatedByClaim(accepts: Bytes -> bool, root: map<Entry, Bytes>, s: State, a: Actor, act: Action, name: string)
    requires Exclusive(root, s) && Final(name) !in s.root && Final(name) in Act(accepts, s, a, act).root
    ensures act.Reserve? && a in s.backups && s.backups[a].phase == Trying(name)
  {
    assert !Holds(s, a, name);
  }

  // ------------------------------------------------------------- retries of a run

  /** The turn is an exclusive creation, and the name is already there, or not. */
  predicate Claims(s: State, t: Turn, taken: bool) {
    && t.act.Reserve? && t.a in s.backups && s.backups[t.a].phase.Trying?
    && (Final(s.backups[t.a].phase.free) in s.root <==> taken)
  }

  function One(condition: bool): nat {
    if condition then 1 else 0
  }

  /** How often backup `a` found its chosen name taken. */
  function FailedClaims(accepts: Bytes -> bool, s: State, turns: seq<Turn>, a: Actor): nat {
    if turns == [] then 0
    else
      var init, last := turns[..|turns| - 1], turns[|turns| - 1];
      FailedClaims(accepts, s, init, a) + One(last.a == a && Claims(Run(accepts, s, init), last, true))
  }

  /** How many names the other backups reserved. */
  function ReservationsOfOthers(accepts: Bytes -> bool, s: State, turns: seq<Turn>, a: Actor): nat {
    if turns == [] then 0
    else
      var init, last := turns[..|turns| - 1], turns[|turns| - 1];
      ReservationsOfOthers(accepts, s, init, a) + One(last.a != a && Claims(Run(accepts, s, init), last, false))
  }

  /** The name a backup is about to claim has been taken meanwhile. */
  predicate Overtaken(s: State, a: Actor) {
    a in s.backups && s.backups[a].phase.Trying? && Final(s.backups[a].phase.free) in s.root
  }

  lemma TurnPaysForRetry(accepts: Bytes -> bool, root: map<Entry, Bytes>, s: State, t: Turn, a: Actor)
    requires Exclusive(root, s)
    ensures var s' := Act(accepts, s, t.a, t.act);
            One(t.a == a && Claims(s, t, true)) + One(Overtaken(s', a)) <=
            One(Overtaken(s, a)) + One(t.a != a && Claims(s, t, false))
  {
    var s' := Act(accepts, s, t.a, t.act);
    if t.a != a {
      OthersPhase(accepts, s, t.a, t.act, a);
      if Overtaken(s', a) && !Overtaken(s, a) {
        CreatedByClaim(accepts, root, s, t.a, t.act, s.backups[a].phase.free);
      }
    } else {
      OwnTurnIsNotOvertaken(accepts, s, a, t.act);
    }
  }

  lemma OwnTurnIsNotOvertaken(accepts: Bytes -> bool, s: State, a: Actor, act: Action)
    ensures Overtaken(Act(accepts, s, a, act), a) ==> Overtaken(s, a) && !Claims(s, Turn(a, act), true)
  {
  }

  /** A backup retries its search at most as often as other backups reserve a
      name. */
  lemma {:induction false} RetriesArePaidFor(
    accepts: Bytes -> bool, root: map<Entry, Bytes>, turns: seq<Turn>, a: Actor)
    ensures var s := State(root, map[]);
            FailedClaims(accepts, s, turns, a) + One(Overtaken(Run(accepts, s, turns), a)) <=
            ReservationsOfOthers(accepts, s, turns, a)
  {
    if turns != [] {
      hide Act, Claims, Overtaken, Sound;
      var s, init, last := State(root, map[]), turns[..|turns| - 1], turns[|turns| - 1];
      RetriesArePaidFor(accepts, root, init, a);
      assert Exclusive(root, Run(accepts, s, init)) by { RunIsExclusive(accepts, root, init); }
      TurnPaysForRetry(accepts, root, Run(accepts, s, init), last, a);
    }
  }

  lemma RunIsExclusive(accepts: Bytes -> bool, root: map<Entry, Bytes>, turns: seq<Turn>)
    ensures Exclusive(root, Run(accepts, State(root, map[]), turns))
  {
    RunIsSound(accepts, root, turns);
  }

  /** The backups besides `a` whose search is behind them. */
  function Past(s: State, a: Actor): set<Actor> {
    set b | b in s.backups && b != a && !s.backups[b].phase.Probing? && !s.backups[b].phase.Trying?
  }

  lemma SearchStaysPast(accepts: Bytes -> bool, s: State, t: Turn, a: Actor)
    ensures var s' := Act(accepts, s, t.a, t.act);
            && Past(s, a) <= Past(s', a)
            && (t.a != a && Claims(s, t, false) ==> t.a in Past(s', a) && t.a !in Past(s, a))
  {
    var s' := Act(accepts, s, t.a, t.act);
    forall b | b in Past(s, a) ensures b in Past(s', a) {
      if b != t.a { OthersPhase(accepts, s, t.a, t.act, b); }
    }
  }

  lemma {:induction false} EachReservesOnce(accepts: Bytes -> bool, s: State, turns: seq<Turn>, a: Actor)
    ensures ReservationsOfOthers(accepts, s, turns, a) <= |Past(Run(accepts, s, turns), a)|
  {
    if turns != [] {
      hide Act, Claims, Past;
      var init, last := turns[..|turns| - 1], turns[|turns| - 1];
      EachReservesOnce(accepts, s, init, a);
      var before, after := Past(Run(accepts, s, init), a), Past(Run(accepts, s, turns), a);
      SearchStaysPast(accepts, Run(accepts, s, init), last, a);
      SmallerSet(before, after);
      if last.a != a && Claims(Run(accepts, s, init), last, false) {
        SmallerSet(before + {last.a}, after);
      }
    }
  }

  lemma {:induction false} SmallerSet<T>(x: set<T>, y: set<T>)
    requires x <= y
    ensures |x| <= |y|
  {
    if x != {} {
      var e :| e in x;
      SmallerSet(x - {e}, y - {e});
    }
  }

  /** Over a whole run of any number of backups, each one's search starts again
      at most once per other backup that got its name. */
  lemma RetriesAreBounded(accepts: Bytes -> bool, root: map<Entry, Bytes>, turns: seq<Turn>, a: Actor)
    ensures var s := State(root, map[]);
            var end := Run(accepts, s, turns);
            FailedClaims(accepts, s, turns, a) <= |Past(end, a)| <= |end.backups.Keys - {a}|
  {
    RetriesArePaidFor(accepts, root, turns, a);
    EachReservesOnce(accepts, State(root, map[]), turns, a);
    var end := Run(accepts, State(root, map[]), turns);
    SmallerSet(Past(end, a), end.backups.Keys - {a});
  }

  // ------------------------------------------------------- one backup on its own

  lemma {:induction false} RunConcat(accepts: Bytes -> bool, s: State, first: seq<Turn>, second: seq<Turn>)
    ensures Run(accepts, s, first + second) == Run(accepts, Run(accepts, s, first), second)
  {
    hide Act;
    if second == [] {
      assert first + second == first;
    } else {
      var init := second[..|second| - 1];
      assert (first + second)[..|first + second| - 1] == first + init;
      RunConcat(accepts, s, first, init);
    }
  }

  /** The steps from a claimed name to the end. */
  function Publication(a: Actor, nothing: Bytes, archive: Bytes): seq<Turn> {
    [Turn(a, Reserve(nothing)), Turn(a, Write(archive, true)), Turn(a, Verify), Turn(a, Replace(true)),
     Turn(a, UnlinkTemp), Turn(a, UnlinkFinal)]
  }

  /** From a free name: the archive is written, verified and put in place of the
      reservation, and the temporary name is gone; a refused archive leaves
      neither. */
  lemma PublishesAlone(accepts: Bytes -> bool, s: State, a: Actor, free: string, nothing: Bytes, archive: Bytes)
    requires a in s.backups && s.backups[a].phase == Trying(free) && Final(free) !in s.root && accepts(archive)
    ensures var end := Run(accepts, s, Publication(a, nothing, archive));
            && a in end.backups && end.backups[a].phase == Done(Some(free))
            && end.root == (s.root - {Temp(free, s.backups[a].pid)})[Final(free) := archive]
  {
    hide Act;
    var t := Publication(a, nothing, archive);
    var verified := Act(accepts, Act(accepts, Act(accepts, s, a, t[0].act), a, t[1].act), a, t[2].act);
    WritesAndVerifies(accepts, s, a, free, nothing, archive);
    PublishesVerified(accepts, verified, a, free);
    RunSix(accepts, s, a, t);
    var pid := s.backups[a].pid;
    assert (verified.root - {Temp(free, pid)})[Final(free) := archive] ==
           (s.root - {Temp(free, pid)})[Final(free) := archive];
  }

  lemma WritesAndVerifies(accepts: Bytes -> bool, s: State, a: Actor, free: string, nothing: Bytes, archive: Bytes)
    requires a in s.backups && s.backups[a].phase == Trying(free) && Final(free) !in s.root && accepts(archive)
    ensures var pid := s.backups[a].pid;
            var reserved := Act(accepts, s, a, Reserve(nothing));
            var s' := Act(accepts, Act(accepts, reserved, a, Write(archive, true)), a, Verify);
            && a in s'.backups && s'.backups[a].phase == Verified(free) && s'.backups[a].pid == pid
            && s'.root == s.root[Final(free) := nothing][Temp(free, pid) := archive]
  {
  }

  lemma PublishesVerified(accepts: Bytes -> bool, s: State, a: Actor, name: string)
    requires a in s.backups && s.backups[a].phase == Verified(name) && Temp(name, s.backups[a].pid) in s.root
    ensures var temp := Temp(name, s.backups[a].pid);
            var s' := Act(accepts, Act(accepts, Act(accepts, s, a, Replace(true)), a, UnlinkTemp), a, UnlinkFinal);
            && a in s'.backups && s'.backups[a].phase == Done(Some(name))
            && s'.root == (s.root - {temp})[Final(name) := s.root[temp]]
  {
  }

  lemma RunSix(accepts: Bytes -> bool, s: State, a: Actor, t: seq<Turn>)
    requires |t| == 6 && forall k :: 0 <= k < 6 ==> t[k].a == a
    ensures Run(accepts, s, t) ==
            Act(accepts, Act(accepts, Act(accepts, Act(accepts, Act(accepts, Act(accepts, s, a, t[0].act), a, t[1].act),
                a, t[2].act), a, t[3].act), a, t[4].act), a, t[5].act)
  {
    hide Act;
    assert Run(accepts, s, t[..0]) == s;
    RunNext(accepts, s, t, 0, t[0]);
    RunNext(accepts, s, t, 1, t[1]);
    RunNext(accepts, s, t, 2, t[2]);
    RunNext(accepts, s, t, 3, t[3]);
    RunNext(accepts, s, t, 4, t[4]);
    RunNext(accepts, s, t, 5, t[5]);
    assert t[..6] == t;
  }

  /** A backup that nobody disturbs, with every step succeeding: the root is what
      it was plus the archive, under the first free name of its timestamp, and
      no temporary file of its own. */
  lemma WholeBackup(
    accepts: Bytes -> bool, s: State, a: Actor, stem: string, pid: nat, nothing: Bytes, archive: Bytes)
    returns (probes: nat, first: nat)
    requires a !in s.backups && accepts(archive)
    ensures probes <= |s.root| + 1 && first >= 1
    ensures var name := Candidate(stem, SUFFIX, first);
            var search := [Turn(a, Begin(stem, pid))] + seq(probes, _ => Turn(a, Probe));
            var end := Run(accepts, s, search + Publication(a, nothing, archive));
            && Final(name) !in s.root
            && (forall m :: 1 <= m < first ==> Final(Candidate(stem, SUFFIX, m)) in s.root)
            && end.root == (s.root - {Temp(name, pid)})[Final(name) := archive]
            && a in end.backups && end.backups[a].phase == Done(Some(name))
  {
    var begun := Act(accepts, s, a, Begin(stem, pid));
    assert begun.root == s.root && begun.backups[a] == Backup(stem, pid, Probing(1));
    probes := SearchEnds(accepts, begun, a, 1);
    first := probes;
    hide Act, Candidate;
    var search := seq(probes, _ => Turn(a, Probe));
    var found := Run(accepts, begun, search);
    RunFirst(accepts, s, Turn(a, Begin(stem, pid)), search);
    RunConcat(accepts, s, [Turn(a, Begin(stem, pid))] + search, Publication(a, nothing, archive));
    PublishesAlone(accepts, found, a, Candidate(stem, SUFFIX, first), nothing, archive);
  }

  /** What fails before the replace gives its name back: neither the reservation
      nor the temporary file stays. */
  lemma FailureGivesBack(accepts: Bytes -> bool, s: State, a: Actor, name: string)
    requires a in s.backups && s.backups[a].phase == Unwinding(name, false)
    ensures var end := Act(accepts, Act(accepts, s, a, UnlinkTemp), a, UnlinkFinal);
            && a in end.backups && end.backups[a].phase == Done(None)
            && end.root == s.root - {Temp(name, s.backups[a].pid), Final(name)}
  {
  }

  /** Failing at any step before the replace, a refusal by the verification and
      a failing replace all lead there, with every other name as it was. */
  lemma FailureUnwinds(accepts: Bytes -> bool, s: State, a: Actor, act: Action, name: string)
    requires a in s.backups
    requires var phase, pid := s.backups[a].phase, s.backups[a].pid;
             || (phase == Reserved(name) && (act == Fail || (act.Write? && !act.whole)))
             || (phase == Written(name) && act == Fail)
             || (&& phase == Written(name) && act == Verify
                 && Temp(name, pid) in s.root && !accepts(s.root[Temp(name, pid)]))
             || (phase == Verified(name) && act == Replace(false))
    ensures var s' := Act(accepts, s, a, act);
            && a in s'.backups && s'.backups[a].phase == Unwinding(name, false)
            && (forall n :: Final(n) in s'.root <==> Final(n) in s.root)
            && (forall n :: Final(n) in s.root ==> s'.root[Final(n)] == s.root[Final(n)])
  {
  }
}
