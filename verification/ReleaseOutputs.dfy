/** Installing the chart archives and their plan: the same transaction with one staging
    directory for all files, whose rollback stops at its first failure and whose directory is
    removed in every case.
 */
module ReleaseOutputs {
  import opened Basics
  import opened FileSystem
  import opened TransactionalWrites

  datatype Result =
    | InstalledAll(cleaned: bool)
    | Undone(cleaned: bool)
    | UndoFailed(at: nat, cleaned: bool)

  // ----- the installation as a function of the plan

  /** Moves the original away, if there is one, and the new content into its place. */
  function SwappingIn(plan: Plan, s: Store, w: Staged): (Store, Staged, bool) {
    var (s1, moved) := if TargetOf(w) in s.files then Renaming(plan, s, TargetOf(w), BackupOf(w)) else (s, true);
    if !moved then (s1, w, false)
    else
      var w1 := if TargetOf(w) in s.files then w.(originalMoved := true) else w;
      var (s2, ok) := Renaming(plan, s1, NextOf(w), TargetOf(w));
      (s2, if ok then w1.(installed := true) else w1, ok)
  }

  /** Swaps the entries in from the `k`th on, up to the first failure. */
  function SwappingAll(plan: Plan, s: Store, staged: seq<Staged>, k: nat): (Store, seq<Staged>, nat)
    requires k <= |staged|
    decreases |staged| - k
  {
    if k == |staged| then (s, staged, k)
    else
      var (s1, w, ok) := SwappingIn(plan, s, staged[k]);
      if ok then SwappingAll(plan, s1, staged[k := w], k + 1) else (s1, staged[k := w], k)
  }

  /** Takes the new content away and puts the original back. */
  function UndoingOne(plan: Plan, s: Store, w: Staged): (Store, bool) {
    var (s1, gone) := if w.installed && TargetOf(w) in s.files then Unlinking(plan, s, TargetOf(w)) else (s, true);
    if gone && BackupOf(w) in s1.files then Renaming(plan, s1, BackupOf(w), TargetOf(w)) else (s1, gone)
  }

  /** Undoes the first `k` entries from the last to the first; tells where it failed. */
  function UndoingAll(plan: Plan, s: Store, staged: seq<Staged>, k: nat): (Store, Option<nat>)
    requires k <= |staged|
    decreases k
  {
    if k == 0 then (s, None)
    else
      var (s1, ok) := UndoingOne(plan, s, staged[k - 1]);
      if ok then UndoingAll(plan, s1, staged, k - 1) else (s1, Some(k - 1))
  }

  /** Checks one target and writes its new content into the directory. */
  function StagingOne(plan: Plan, s: Store, w: Staged): (Store, bool) {
    var (s1, regular) := Inspecting(plan, s);
    if regular then Creating(plan, s1, NextOf(w), w.write.content) else (s1, false)
  }

  /** Stages the writes that have no record yet in the one directory. */
  function StagingAll(plan: Plan, s: Store, writes: seq<Write>, stage: nat, staged: seq<Staged>)
    : (Store, seq<Staged>, bool)
    requires |staged| <= |writes|
    decreases |writes| - |staged|
  {
    if |staged| == |writes| then (s, staged, true)
    else
      var write := writes[|staged|];
      var w := Staged(write, stage, Target(write.name) in s.files, false, false);
      var (s1, ok) := StagingOne(plan, s, w);
      if ok then StagingAll(plan, s1, writes, stage, staged + [w]) else (s1, staged, false)
  }

  function RollingBack(plan: Plan, s: Store, staged: seq<Staged>): (Store, Result) {
    var (s', failed) := UndoingAll(plan, s, staged, |staged|);
    (s', if failed.None? then Undone(true) else UndoFailed(failed.value, true))
  }

  function SwappingOrBack(plan: Plan, s: Store, staged: seq<Staged>): (Store, Result) {
    var (s', swapped, k) := SwappingAll(plan, s, staged, 0);
    if k == |swapped| then (s', InstalledAll(true)) else RollingBack(plan, s', swapped)
  }

  /** Everything between making the directory and removing it. */
  function Attempting(plan: Plan, s: Store, writes: seq<Write>, stage: nat): (Store, Result) {
    var (s1, staged, ok) := StagingAll(plan, s, writes, stage, []);
    if ok then SwappingOrBack(plan, s1, staged) else RollingBack(plan, s1, staged)
  }

  function Installing(plan: Plan, s: Store, writes: seq<Write>): (Store, Result) {
    var (s1, ok) := MakingStage(plan, s);
    if !ok then (s1, Undone(true))
    else
      var (s2, result) := Attempting(plan, s1, writes, s.nextStage);
      var (s3, cleaned) := RemovingStage(plan, s2, s.nextStage);
      (s3, result.(cleaned := cleaned))
  }

  // ----- one entry

  /** Nothing but files has changed, and failures are told and planned. */
  ghost predicate Within(plan: Plan, s: Store, s': Store, ok: bool, phase: Phase) {
    && s'.stages == s.stages && s'.nextStage == s.nextStage
    && ToldBy(ok, s.failed, s'.failed, phase)
    && AsPlanned(plan, s, s')
  }

  lemma WithinTwice(plan: Plan, a: Store, b: Store, c: Store, ok: bool, phase: Phase)
    requires Within(plan, a, b, true, phase) && Within(plan, b, c, ok, phase)
    ensures Within(plan, a, c, ok, phase)
  {
    AsPlannedTwice(plan, a, b, c);
  }

  lemma RenamingSound(plan: Plan, s: Store, from: Path, to: Path)
    requires from in s.files
    ensures var (s', ok) := Renaming(plan, s, from, to);
            && Within(plan, s, s', ok, RenamePhase(from))
            && s'.files == if ok then Moved(s.files, from, to) else s.files
  {
    OneStep(plan, s.ops);
  }

  lemma UnlinkingSound(plan: Plan, s: Store, p: Path)
    requires p in s.files
    ensures var (s', ok) := Unlinking(plan, s, p);
            Within(plan, s, s', ok, Undoing) && s'.files == if ok then s.files - {p} else s.files
  {
    OneStep(plan, s.ops);
  }

  lemma SwappingInSound(plan: Plan, s: Store, w: Staged, before: map<Path, Content>)
    requires Untouched(s.files, before, w) && (w.originalExists <==> TargetOf(w) in before)
    ensures var (s', w', ok) := SwappingIn(plan, s, w);
            && Within(plan, s, s', ok, Swapping)
            && w' == w.(originalMoved := w'.originalMoved, installed := w'.installed)
            && SameOutside(s'.files, s.files, Owned(w))
            && if ok then Swapped(s'.files, before, w')
               else Untouched(s'.files, before, w') || Displaced(s'.files, before, w')
  {
    if TargetOf(w) in s.files {
      var (s1, moved) := Renaming(plan, s, TargetOf(w), BackupOf(w));
      RenamingSound(plan, s, TargetOf(w), BackupOf(w));
      if moved {
        RenamingSound(plan, s1, NextOf(w), TargetOf(w));
        var (s2, ok) := Renaming(plan, s1, NextOf(w), TargetOf(w));
        WithinTwice(plan, s, s1, s2, ok, Swapping);
      }
    } else {
      RenamingSound(plan, s, NextOf(w), TargetOf(w));
    }
  }

  /** An entry whose rollback failed: its new content could not be removed, or its original
      could not be put back; the original is still in the backup. */
  ghost predicate Stranded(files: map<Path, Content>, before: map<Path, Content>, w: Staged) {
    && (|| At(files, TargetOf(w)) == Some(w.write.content)
        || (At(files, TargetOf(w)) == None && TargetOf(w) in before))
    && At(files, BackupOf(w)) == At(before, TargetOf(w))
  }

  /** Undoing touches nothing but the entry's own paths, and fails only where the plan says. */
  lemma UndoingOneTold(plan: Plan, s: Store, w: Staged)
    ensures var (s', ok) := UndoingOne(plan, s, w);
            Within(plan, s, s', ok, Undoing) && SameOutside(s'.files, s.files, Owned(w))
  {
    if w.installed && TargetOf(w) in s.files {
      var (s1, gone) := Unlinking(plan, s, TargetOf(w));
      UnlinkingSound(plan, s, TargetOf(w));
      if gone && BackupOf(w) in s1.files {
        RenamingSound(plan, s1, BackupOf(w), TargetOf(w));
        var (s2, ok) := Renaming(plan, s1, BackupOf(w), TargetOf(w));
        WithinTwice(plan, s, s1, s2, ok, Undoing);
      }
    } else if BackupOf(w) in s.files {
      RenamingSound(plan, s, BackupOf(w), TargetOf(w));
    }
  }

  lemma UndoingOneSound(plan: Plan, s: Store, w: Staged, before: map<Path, Content>)
    requires Placed(s.files, before, w) && (w.originalExists <==> TargetOf(w) in before)
    ensures var (s', ok) := UndoingOne(plan, s, w);
            if ok then Restored(s'.files, before, w) else Stranded(s'.files, before, w)
    ensures Untouched(s.files, before, w) ==> UndoingOne(plan, s, w) == (s, true)
  {
  }

  // ----- all entries

  /** The entries before `k` are swapped in, those after it untouched, and `k` is wherever its
      own swap failed. */
  ghost predicate StoppedAt(files: map<Path, Content>, before: map<Path, Content>, staged: seq<Staged>, k: nat) {
    && AllPlaced(files, before, staged)
    && (forall i :: 0 <= i < k <= |staged| ==> Swapped(files, before, staged[i]))
    && (forall i :: k < i < |staged| ==> Untouched(files, before, staged[i]))
  }

  /** One more entry swapped in, or the point where the swaps stop. */
  lemma SwapNext(plan: Plan, s: Store, staged: seq<Staged>, k: nat, before: map<Path, Content>, firstStage: nat)
    requires k < |staged| && InFlight(s.files, before, staged, k, firstStage, s.nextStage)
    ensures var (s', w, ok) := SwappingIn(plan, s, staged[k]);
            && Within(plan, s, s', ok, Swapping)
            && SameWrites(staged[k := w], staged)
            && Stopped(s'.files, before, staged[k := w], firstStage, s'.nextStage)
            && StoppedAt(s'.files, before, staged[k := w], k)
            && (ok ==> InFlight(s'.files, before, staged[k := w], k + 1, firstStage, s'.nextStage))
  {
    var (s', w, ok) := SwappingIn(plan, s, staged[k]);
    SwappingInSound(plan, s, staged[k], before);
    FlightStep(s'.files, s.files, before, staged, k, w, firstStage, s.nextStage);
    StopStep(s'.files, s.files, before, staged, k, w, firstStage, s.nextStage);
  }

  /** Swapping stops after the last entry exactly when no swap failed. */
  lemma {:induction false} SwappingAllSound(plan: Plan, s: Store, staged: seq<Staged>, k: nat,
                                            before: map<Path, Content>, firstStage: nat)
    requires k <= |staged| && InFlight(s.files, before, staged, k, firstStage, s.nextStage)
    ensures var (s', staged', k') := SwappingAll(plan, s, staged, k);
            && k' <= |staged'| && SameWrites(staged', staged)
            && Within(plan, s, s', k' == |staged'|, Swapping)
            && Stopped(s'.files, before, staged', firstStage, s'.nextStage)
            && StoppedAt(s'.files, before, staged', k')
    decreases |staged| - k
  {
    if k == |staged| {
    } else {
      var (s1, w, ok) := SwappingIn(plan, s, staged[k]);
      SwapNext(plan, s, staged, k, before, firstStage);
      if ok {
        SwappingAllSound(plan, s1, staged[k := w], k + 1, before, firstStage);
        var (s2, _, k') := SwappingAll(plan, s1, staged[k := w], k + 1);
        WithinTwice(plan, s, s1, s2, k' == |staged|, Swapping);
      }
    }
  }

  lemma StopStep(files: map<Path, Content>, earlier: map<Path, Content>, before: map<Path, Content>,
                 staged: seq<Staged>, k: nat, w: Staged, firstStage: nat, nextStage: nat)
    requires k < |staged|
    requires InFlight(earlier, before, staged, k, firstStage, nextStage)
    requires SameOutside(files, earlier, Owned(staged[k]))
    requires Placed(files, before, w)
    ensures StoppedAt(files, before, staged[k := w], k)
  {
    SwapStep(files, earlier, before, staged, k, w, firstStage, nextStage);
    forall i | 0 <= i < |staged| && i != k
      ensures i < k ==> Swapped(files, before, staged[i])
      ensures i > k ==> Untouched(files, before, staged[i])
    {
      OwnedDisjoint(staged, before, firstStage, nextStage, k, i);
      SameSlots(files, earlier, before, Owned(staged[k]), staged[i]);
    }
  }

  /** The entries from `k` on are undone and those before it as they were left. */
  ghost predicate UndoneFrom(files: map<Path, Content>, before: map<Path, Content>, staged: seq<Staged>, k: nat,
                             stop: nat) {
    && (forall i :: k <= i < |staged| ==> Restored(files, before, staged[i]))
    && (forall i :: 0 <= i < k <= |staged| ==> Placed(files, before, staged[i]))
    && (forall i :: 0 <= i < k <= |staged| && i < stop ==> Swapped(files, before, staged[i]))
    && (forall i :: stop < i < k <= |staged| ==> Untouched(files, before, staged[i]))
  }

  lemma UndoStep(files: map<Path, Content>, earlier: map<Path, Content>, before: map<Path, Content>,
                 staged: seq<Staged>, k: nat, stop: nat, firstStage: nat, nextStage: nat)
    requires k < |staged|
    requires WellStaged(staged, before, firstStage, nextStage)
    requires UndoneFrom(earlier, before, staged, k + 1, stop)
    requires SameOutside(files, earlier, Owned(staged[k]))
    ensures forall i :: k < i < |staged| ==> Restored(files, before, staged[i])
    ensures forall i :: 0 <= i < k && i < stop ==> Swapped(files, before, staged[i])
    ensures Restored(files, before, staged[k]) ==> UndoneFrom(files, before, staged, k, stop)
  {
    forall i | 0 <= i < |staged| && i != k
      ensures i > k ==> Restored(files, before, staged[i])
      ensures i < k ==> Placed(files, before, staged[i])
      ensures i < k && i < stop ==> Swapped(files, before, staged[i])
      ensures stop < i < k ==> Untouched(files, before, staged[i])
    {
      OwnedDisjoint(staged, before, firstStage, nextStage, k, i);
      SameSlots(files, earlier, before, Owned(staged[k]), staged[i]);
    }
  }

  /** Undoing comes through exactly when no undo operation failed, and touches only the
      entries' own paths. */
  lemma {:induction false} UndoingAllTold(plan: Plan, s: Store, staged: seq<Staged>, k: nat, before: map<Path, Content>)
    requires k <= |staged| && OthersKept(s.files, before, staged)
    ensures var r := UndoingAll(plan, s, staged, k);
            Within(plan, s, r.0, r.1.None?, Undoing) && OthersKept(r.0.files, before, staged)
    decreases k
  {
    if k == 0 {
    } else {
      var step := UndoingOne(plan, s, staged[k - 1]);
      UndoingOneTold(plan, s, staged[k - 1]);
      OthersStayKept(step.0.files, s.files, before, staged, k - 1);
      if step.1 {
        UndoingAllTold(plan, step.0, staged, k - 1, before);
        var r := UndoingAll(plan, step.0, staged, k - 1);
        WithinTwice(plan, s, step.0, r.0, r.1.None?, Undoing);
      }
    }
  }

  /** How a rollback ends. */
  ghost predicate Ended(files: map<Path, Content>, staged: seq<Staged>, failed: Option<nat>,
                        before: map<Path, Content>) {
    match failed
    case None => forall i :: 0 <= i < |staged| ==> Restored(files, before, staged[i])
    case Some(k) => GaveUpAt(files, before, staged, k)
  }

  /** One more entry undone, or the point where undoing stops. */
  lemma UndoNext(plan: Plan, s: Store, staged: seq<Staged>, k: nat, stop: nat, before: map<Path, Content>,
                 firstStage: nat)
    returns (s': Store, ok: bool)
    requires k < |staged| && WellStaged(staged, before, firstStage, s.nextStage)
    requires UndoneFrom(s.files, before, staged, k + 1, stop)
    ensures UndoingAll(plan, s, staged, k + 1) == if ok then UndoingAll(plan, s', staged, k) else (s', Some(k))
    ensures s'.nextStage == s.nextStage
    ensures if ok then UndoneFrom(s'.files, before, staged, k, stop) else GaveUpAt(s'.files, before, staged, k)
  {
    var step := UndoingOne(plan, s, staged[k]);
    s', ok := step.0, step.1;
    UndoingOneTold(plan, s, staged[k]);
    UndoingOneSound(plan, s, staged[k], before);
    UndoStep(s'.files, s.files, before, staged, k, stop, firstStage, s.nextStage);
    if !ok {
      StopsHere(s'.files, s.files, before, staged, k, stop);
    }
  }

  lemma {:induction false} UndoingAllSound(plan: Plan, s: Store, staged: seq<Staged>, k: nat, stop: nat,
                                           before: map<Path, Content>, firstStage: nat)
    returns (s': Store, failed: Option<nat>)
    requires k <= |staged| && WellStaged(staged, before, firstStage, s.nextStage)
    requires UndoneFrom(s.files, before, staged, k, stop)
    ensures (s', failed) == UndoingAll(plan, s, staged, k)
    ensures Ended(s'.files, staged, failed, before)
    decreases k
  {
    if k == 0 {
      s', failed := s, None;
    } else {
      var s1, ok := UndoNext(plan, s, staged, k - 1, stop, before, firstStage);
      if ok {
        s', failed := UndoingAllSound(plan, s1, staged, k - 1, stop, before, firstStage);
      } else {
        s', failed := s1, Some(k - 1);
      }
    }
  }

  lemma StopsHere(files: map<Path, Content>, earlier: map<Path, Content>, before: map<Path, Content>,
                  staged: seq<Staged>, k: nat, stop: nat)
    requires k < |staged| && UndoneFrom(earlier, before, staged, k + 1, stop)
    requires Stranded(files, before, staged[k]) && !Untouched(earlier, before, staged[k])
    requires forall i :: k < i < |staged| ==> Restored(files, before, staged[i])
    requires forall i :: 0 <= i < k && i < stop ==> Swapped(files, before, staged[i])
    ensures GaveUpAt(files, before, staged, k)
  {
    assert k <= stop;
  }

  /** A rollback that failed at entry `k`: later entries are restored, earlier ones still carry
      the new contents, and entry `k` itself is missing or still carries its new content.  The
      originals of both are in their backups. */
  ghost predicate GaveUpAt(files: map<Path, Content>, before: map<Path, Content>, staged: seq<Staged>, k: nat) {
    && k < |staged|
    && (forall i :: k < i < |staged| ==> Restored(files, before, staged[i]))
    && Stranded(files, before, staged[k])
    && (forall i :: 0 <= i < k ==> Swapped(files, before, staged[i]))
  }

  ghost predicate OneStage(staged: seq<Staged>, stage: nat) {
    forall i :: 0 <= i < |staged| ==> staged[i].stage == stage
  }

  /** Everything outside the staging directory is as before. */
  ghost predicate AsBefore(files: map<Path, Content>, before: map<Path, Content>, stage: nat) {
    forall p :: !InStage(p, stage) ==> At(files, p) == At(before, p)
  }

  /** The first writes are staged and their targets untouched; part of one more file may be in
      the directory. */
  ghost predicate PartlyStaged(files: map<Path, Content>, before: map<Path, Content>, writes: seq<Write>,
                               staged: seq<Staged>, stage: nat) {
    && |staged| <= |writes| && (forall i :: 0 <= i < |staged| ==> staged[i].write == writes[i])
    && WellStaged(staged, before, stage, stage + 1)
    && SwappedUpTo(files, before, staged, 0)
    && OneStage(staged, stage)
    && AsBefore(files, before, stage)
    && StageGone(before, stage)
  }

  lemma NextIsFree(files: map<Path, Content>, before: map<Path, Content>, writes: seq<Write>, staged: seq<Staged>,
                   w: Staged)
    requires DistinctNames(writes) && |staged| < |writes| && w.write == writes[|staged|]
    requires PartlyStaged(files, before, writes, staged, w.stage) && OthersKept(files, before, staged)
    ensures NextOf(w) !in files
  {
    assert forall i :: 0 <= i < |staged| ==> NextOf(w) !in Owned(staged[i]);
    assert At(files, NextOf(w)) == At(before, NextOf(w));
  }

  /** Staging comes through exactly when no operation of it failed. */
  lemma {:induction false} StagingAllSound(plan: Plan, s: Store, writes: seq<Write>, stage: nat, staged: seq<Staged>,
                                           before: map<Path, Content>)
    requires PartlyStaged(s.files, before, writes, staged, stage) && OthersKept(s.files, before, staged)
    ensures var (s', staged', ok) := StagingAll(plan, s, writes, stage, staged);
            && s'.stages == s.stages && s'.nextStage == s.nextStage
            && ToldBy(ok, s.failed, s'.failed, Staging)
            && (DistinctNames(writes) ==> AsPlanned(plan, s, s'))
            && PartlyStaged(s'.files, before, writes, staged', stage)
            && (ok ==> |staged'| == |writes| && OthersKept(s'.files, before, staged'))
    decreases |writes| - |staged|
  {
    if |staged| == |writes| {
    } else {
      var write := writes[|staged|];
      var w := Staged(write, stage, Target(write.name) in s.files, false, false);
      var (s1, ok) := StagingOne(plan, s, w);
      StagingOneSound(plan, s, w, writes, staged, before);
      if ok {
        StagingAllSound(plan, s1, writes, stage, staged + [w], before);
        if DistinctNames(writes) {
          AsPlannedTwice(plan, s, s1, StagingAll(plan, s1, writes, stage, staged + [w]).0);
        }
      }
    }
  }

  lemma StagingOneSound(plan: Plan, s: Store, w: Staged, writes: seq<Write>, staged: seq<Staged>,
                        before: map<Path, Content>)
    requires PartlyStaged(s.files, before, writes, staged, w.stage) && OthersKept(s.files, before, staged)
    requires |staged| < |writes| && w == Staged(writes[|staged|], w.stage, TargetOf(w) in s.files, false, false)
    ensures var (s', ok) := StagingOne(plan, s, w);
            && s'.stages == s.stages && s'.nextStage == s.nextStage
            && ToldBy(ok, s.failed, s'.failed, Staging)
            && (DistinctNames(writes) ==> AsPlanned(plan, s, s'))
            && (!ok ==> PartlyStaged(s'.files, before, writes, staged, w.stage))
            && (ok ==> PartlyStaged(s'.files, before, writes, staged + [w], w.stage))
            && (ok ==> OthersKept(s'.files, before, staged + [w]))
  {
    if DistinctNames(writes) {
      NextIsFree(s.files, before, writes, staged, w);
    }
    StagingOneTold(plan, s, w);
    var (s', ok) := StagingOne(plan, s, w);
    if ok {
      EntryStaged(s'.files, s.files, before, writes, staged, w);
    } else {
      EntryPartial(s'.files, s.files, before, staged, w);
    }
  }

  lemma EntryStaged(files: map<Path, Content>, earlier: map<Path, Content>, before: map<Path, Content>,
                    writes: seq<Write>, staged: seq<Staged>, w: Staged)
    requires PartlyStaged(earlier, before, writes, staged, w.stage) && OthersKept(earlier, before, staged)
    requires |staged| < |writes| && w == Staged(writes[|staged|], w.stage, TargetOf(w) in earlier, false, false)
    requires NextOf(w) !in earlier && files == earlier[NextOf(w) := w.write.content]
    ensures PartlyStaged(files, before, writes, staged + [w], w.stage) && OthersKept(files, before, staged + [w])
  {
    EntrySnoc(files, earlier, before, staged, w);
  }

  lemma StagingOneTold(plan: Plan, s: Store, w: Staged)
    ensures var (s', ok) := StagingOne(plan, s, w);
            && s'.stages == s.stages && s'.nextStage == s.nextStage
            && ToldBy(ok, s.failed, s'.failed, Staging)
            && (NextOf(w) !in s.files ==> AsPlanned(plan, s, s'))
            && (s'.files == s.files || (NextOf(w) !in s.files && SameOutside(s'.files, s.files, {NextOf(w)})))
            && (ok ==> NextOf(w) !in s.files && s'.files == s.files[NextOf(w) := w.write.content])
  {
    var (s1, regular) := Inspecting(plan, s);
    OneStep(plan, s.ops);
    if regular {
      OneStep(plan, s1.ops);
      if NextOf(w) !in s.files {
        AsPlannedTwice(plan, s, s1, Creating(plan, s1, NextOf(w), w.write.content).0);
      }
    }
  }

  /** A file that could not be written completely disturbs no staged entry. */
  lemma EntryPartial(files: map<Path, Content>, earlier: map<Path, Content>, before: map<Path, Content>,
                     staged: seq<Staged>, w: Staged)
    requires SwappedUpTo(earlier, before, staged, 0)
    requires AsBefore(earlier, before, w.stage)
    requires files == earlier || (NextOf(w) !in earlier && SameOutside(files, earlier, {NextOf(w)}))
    ensures SwappedUpTo(files, before, staged, 0)
    ensures AsBefore(files, before, w.stage)
  {
    if files != earlier {
      forall i | 0 <= i < |staged|
        ensures Untouched(files, before, staged[i])
      {
        assert Untouched(earlier, before, staged[i]);
        assert NextOf(w) !in Owned(staged[i]);
        SameSlots(files, earlier, before, {NextOf(w)}, staged[i]);
      }
      forall p | !InStage(p, w.stage)
        ensures At(files, p) == At(before, p)
      {
        assert At(files, p) == At(earlier, p) == At(before, p);
      }
    }
  }

  lemma EntrySnoc(files: map<Path, Content>, earlier: map<Path, Content>, before: map<Path, Content>,
                  staged: seq<Staged>, w: Staged)
    requires InFlight(earlier, before, staged, 0, w.stage, w.stage + 1)
    requires OneStage(staged, w.stage)
    requires AsBefore(earlier, before, w.stage)
    requires w.originalExists <==> TargetOf(w) in earlier
    requires !w.originalMoved && !w.installed
    requires NextOf(w) !in earlier && files == earlier[NextOf(w) := w.write.content]
    ensures InFlight(files, before, staged + [w], 0, w.stage, w.stage + 1)
    ensures OneStage(staged + [w], w.stage)
    ensures AsBefore(files, before, w.stage)
  {
    var all := staged + [w];
    EntryPartial(files, earlier, before, staged, w);
    assert forall i :: 0 <= i < |staged| ==> all[i] == staged[i] && Untouched(earlier, before, staged[i]);
    assert At(earlier, TargetOf(w)) == At(before, TargetOf(w));
    assert WellStaged(all, before, w.stage, w.stage + 1);
    assert BackupOf(w) !in files by {
      assert forall i :: 0 <= i < |staged| ==> BackupOf(w) !in Owned(staged[i]);
      assert At(earlier, BackupOf(w)) == At(before, BackupOf(w));
    }
    forall p | forall i :: 0 <= i < |all| ==> p !in Owned(all[i])
      ensures At(files, p) == At(before, p)
    {
      assert p !in Owned(all[|staged|]);
      assert forall i :: 0 <= i < |staged| ==> p !in Owned(staged[i]);
      assert At(earlier, p) == At(before, p);
    }
  }

  // ----- the installation

  /** `files` is `uncleaned` after removals from the staging directory. */
  ghost predicate SweptStage(files: map<Path, Content>, uncleaned: map<Path, Content>, stage: nat) {
    && (forall p :: p in files ==> p in uncleaned && files[p] == uncleaned[p])
    && (forall p :: p in uncleaned && !InStage(p, stage) ==> p in files)
  }

  /** Removing the directory kept of it exactly what the fault kept. */
  ghost predicate Remains(files: map<Path, Content>, uncleaned: map<Path, Content>, stage: nat, fault: Fault) {
    forall p :: InStage(p, stage) ==> At(files, p) == if Keeps(fault, p) then At(uncleaned, p) else None
  }

  predicate Keeps(fault: Fault, p: Path) {
    fault.Fails? && p in fault.kept
  }

  ghost predicate StageGone(files: map<Path, Content>, stage: nat) {
    forall p :: p in files ==> !InStage(p, stage)
  }

  /** Nothing but the written targets and the staging directory differs. */
  ghost predicate OnlyTargets(files: map<Path, Content>, before: map<Path, Content>, writes: seq<Write>, stage: nat) {
    forall p :: !InStage(p, stage) && !(p.Target? && p.name in Names(writes)) ==> At(files, p) == At(before, p)
  }

  lemma SweptKeeps(files: map<Path, Content>, uncleaned: map<Path, Content>, stage: nat, p: Path)
    requires SweptStage(files, uncleaned, stage)
    requires !InStage(p, stage)
    ensures At(files, p) == At(uncleaned, p)
  {
  }

  lemma KeptMeansOnly(files: map<Path, Content>, before: map<Path, Content>, staged: seq<Staged>, writes: seq<Write>,
                      stage: nat)
    requires OneStage(staged, stage) && |staged| <= |writes|
    requires forall i :: 0 <= i < |staged| ==> staged[i].write == writes[i]
    requires OthersKept(files, before, staged)
    ensures OnlyTargets(files, before, writes, stage)
  {
    forall p | !InStage(p, stage) && !(p.Target? && p.name in Names(writes))
      ensures At(files, p) == At(before, p)
    {
      forall i | 0 <= i < |staged|
        ensures p !in Owned(staged[i])
      {
        assert writes[i] in writes;
      }
    }
  }

  lemma SweptAsBefore(files: map<Path, Content>, uncleaned: map<Path, Content>, before: map<Path, Content>, stage: nat)
    requires AsBefore(uncleaned, before, stage)
    requires SweptStage(files, uncleaned, stage)
    requires StageGone(before, stage)
    ensures TargetsKept(files, before)
    ensures StageGone(files, stage) ==> files == before
  {
    forall p | !InStage(p, stage)
      ensures At(files, p) == At(before, p)
    {
      SweptKeeps(files, uncleaned, stage, p);
      assert At(uncleaned, p) == At(before, p);
    }
    if StageGone(files, stage) {
      SameAt(files, before);
    }
  }

  /** Restoring every entry leaves everything outside the staging directory as before. */
  lemma RestoredAsBefore(files: map<Path, Content>, before: map<Path, Content>, staged: seq<Staged>, stage: nat)
    requires OneStage(staged, stage) && OthersKept(files, before, staged)
    requires forall i :: 0 <= i < |staged| ==> Restored(files, before, staged[i])
    ensures AsBefore(files, before, stage)
  {
    forall p | !InStage(p, stage)
      ensures At(files, p) == At(before, p)
    {
      if i :| 0 <= i < |staged| && p == TargetOf(staged[i]) {
        assert Restored(files, before, staged[i]);
      } else {
        assert forall i :: 0 <= i < |staged| ==> p !in Owned(staged[i]);
      }
    }
  }

  lemma OneStageSwept(files: map<Path, Content>, uncleaned: map<Path, Content>, staged: seq<Staged>, stage: nat)
    requires OneStage(staged, stage) && staged != []
    requires SweptStage(files, uncleaned, stage)
    ensures Swept(files, uncleaned, staged)
    ensures StageGone(files, stage) ==> NoStagesLeft(files, staged)
  {
    assert staged[0].stage == stage;
    forall p
      ensures InStage(p, stage) <==> InSomeStage(p, staged)
    {
      if InStage(p, stage) {
        assert InStage(p, staged[0].stage);
      }
    }
  }

  /** The entries of a failed rollback, told by the writes alone. */
  ghost predicate LeftAt(files: map<Path, Content>, before: map<Path, Content>, writes: seq<Write>, k: nat) {
    && k < |writes|
    && (forall i :: k < i < |writes| ==> At(files, Target(writes[i].name)) == At(before, Target(writes[i].name)))
    && (|| At(files, Target(writes[k].name)) == Some(writes[k].content)
        || (At(files, Target(writes[k].name)) == None && Target(writes[k].name) in before))
    && (forall i :: 0 <= i < k ==> At(files, Target(writes[i].name)) == Some(writes[i].content))
  }

  lemma GaveUpMeansLeft(files: map<Path, Content>, uncleaned: map<Path, Content>, before: map<Path, Content>,
                        staged: seq<Staged>, writes: seq<Write>, stage: nat, k: nat)
    requires |staged| == |writes|
    requires forall i :: 0 <= i < |staged| ==> staged[i].write == writes[i]
    requires GaveUpAt(uncleaned, before, staged, k)
    requires SweptStage(files, uncleaned, stage)
    ensures LeftAt(files, before, writes, k)
  {
    forall i | 0 <= i < |writes|
      ensures At(files, Target(writes[i].name)) == At(uncleaned, TargetOf(staged[i]))
    {
      SweptKeeps(files, uncleaned, stage, TargetOf(staged[i]));
    }
  }

  /** What the attempt leaves for the final removal of the staging directory. */
  ghost predicate Attempted(files: map<Path, Content>, before: map<Path, Content>, staged: seq<Staged>,
                            writes: seq<Write>, stage: nat, result: Result) {
    match result
    case InstalledAll(_) =>
      && Named(staged, writes, stage)
      && InFlight(files, before, staged, |staged|, stage, stage + 1)
    case Undone(_) =>
      AsBefore(files, before, stage)
    case UndoFailed(k, _) =>
      && Named(staged, writes, stage)
      && OthersKept(files, before, staged)
      && GaveUpAt(files, before, staged, k)
  }

  /** When only staging took place there is nothing to undo. */
  lemma {:induction false} NothingToUndo(plan: Plan, s: Store, staged: seq<Staged>, k: nat, before: map<Path, Content>,
                                         stage: nat)
    requires k <= |staged| && WellStaged(staged, before, stage, stage + 1) && SwappedUpTo(s.files, before, staged, 0)
    ensures UndoingAll(plan, s, staged, k) == (s, None)
  {
    if k == 0 {
    } else {
      assert Untouched(s.files, before, staged[k - 1]);
      UndoingOneSound(plan, s, staged[k - 1], before);
      NothingToUndo(plan, s, staged, k - 1, before, stage);
    }
  }

  /** The result is told by which steps had a failed operation. */
  ghost predicate Tells(result: Result, before: Tally, after: Tally) {
    && (result.InstalledAll? <==> after.staging == before.staging && after.swapping == before.swapping)
    && (result.UndoFailed? <==> after.undoing > before.undoing)
    && Grows(before, after)
  }

  /** The records name the writes, in order and in the one directory. */
  ghost predicate Named(staged: seq<Staged>, writes: seq<Write>, stage: nat) {
    |staged| == |writes| && OneStage(staged, stage) && forall i :: 0 <= i < |staged| ==> staged[i].write == writes[i]
  }

  lemma RollingBackSound(plan: Plan, s: Store, staged: seq<Staged>, k: nat, writes: seq<Write>,
                         before: map<Path, Content>, stage: nat)
    requires Named(staged, writes, stage) && k <= |staged| && s.nextStage == stage + 1
    requires Stopped(s.files, before, staged, stage, s.nextStage) && StoppedAt(s.files, before, staged, k)
    ensures var (s', result) := RollingBack(plan, s, staged);
            && Within(plan, s, s', result.Undone?, Undoing)
            && !result.InstalledAll?
            && Attempted(s'.files, before, staged, writes, stage, result)
  {
    UndoingAllTold(plan, s, staged, |staged|, before);
    var s', failed := UndoingAllSound(plan, s, staged, |staged|, k, before, stage);
    if failed.None? {
      RestoredAsBefore(s'.files, before, staged, stage);
    }
  }

  lemma SwappingOrBackSound(plan: Plan, s: Store, staged: seq<Staged>, writes: seq<Write>, before: map<Path, Content>,
                            stage: nat)
    requires Named(staged, writes, stage) && s.nextStage == stage + 1
    requires InFlight(s.files, before, staged, 0, stage, s.nextStage)
    ensures var (s', result) := SwappingOrBack(plan, s, staged);
            && s'.stages == s.stages && s'.nextStage == s.nextStage && s'.failed.cleaning == s.failed.cleaning
            && s'.failed.staging == s.failed.staging && Tells(result, s.failed, s'.failed)
            && AsPlanned(plan, s, s')
            && Attempted(s'.files, before, SwappingAll(plan, s, staged, 0).1, writes, stage, result)
  {
    SwappingAllSound(plan, s, staged, 0, before, stage);
    var (s1, swapped, k) := SwappingAll(plan, s, staged, 0);
    assert Named(swapped, writes, stage);
    if k == |swapped| {
      assert InFlight(s1.files, before, swapped, |swapped|, stage, stage + 1);
    } else {
      RollingBackSound(plan, s1, swapped, k, writes, before, stage);
      AsPlannedTwice(plan, s, s1, RollingBack(plan, s1, swapped).0);
    }
  }

  /** The records that the attempt worked with. */
  ghost function Records(plan: Plan, s: Store, writes: seq<Write>, stage: nat): seq<Staged> {
    var (s1, staged, ok) := StagingAll(plan, s, writes, stage, []);
    if ok then SwappingAll(plan, s1, staged, 0).1 else staged
  }

  lemma AttemptingSound(plan: Plan, s: Store, writes: seq<Write>, stage: nat)
    requires s.nextStage == stage + 1 && StageGone(s.files, stage)
    requires forall p :: p in s.files && !p.Target? ==> p.stage < stage
    ensures var (s', result) := Attempting(plan, s, writes, stage);
            && s'.stages == s.stages && s'.nextStage == s.nextStage && s'.failed.cleaning == s.failed.cleaning
            && Tells(result, s.failed, s'.failed)
            && (DistinctNames(writes) ==> AsPlanned(plan, s, s'))
            && Attempted(s'.files, s.files, Records(plan, s, writes, stage), writes, stage, result)
  {
    StagingAllSound(plan, s, writes, stage, [], s.files);
    var (s1, staged, ok) := StagingAll(plan, s, writes, stage, []);
    if ok {
      SwappingOrBackSound(plan, s1, staged, writes, s.files, stage);
      if DistinctNames(writes) {
        AsPlannedTwice(plan, s, s1, SwappingOrBack(plan, s1, staged).0);
      }
    } else {
      NothingToUndo(plan, s1, staged, |staged|, s.files, stage);
    }
  }

  /** What the caller is promised. */
  ghost predicate Promised(files: map<Path, Content>, before: map<Path, Content>, writes: seq<Write>, stage: nat,
                           result: Result) {
    match result
    case InstalledAll(cleaned) =>
      && DistinctNames(writes)
      && TargetsKept(files, Written(before, writes))
      && (cleaned ==> files == Written(before, writes))
    case Undone(cleaned) =>
      TargetsKept(files, before) && (cleaned ==> files == before)
    case UndoFailed(k, cleaned) =>
      && LeftAt(files, before, writes, k)
      && OnlyTargets(files, before, writes, stage)
      && (cleaned ==> StageGone(files, stage))
  }

  lemma AttemptedMeansPromised(files: map<Path, Content>, uncleaned: map<Path, Content>, before: map<Path, Content>,
                               staged: seq<Staged>, writes: seq<Write>, stage: nat, result: Result)
    requires writes != [] && StageGone(before, stage)
    requires Attempted(uncleaned, before, staged, writes, stage, result)
    requires SweptStage(files, uncleaned, stage)
    requires result.cleaned ==> StageGone(files, stage)
    ensures Promised(files, before, writes, stage, result)
  {
    match result
    case InstalledAll(_) =>
      assert DistinctNames(writes);
      OneStageSwept(files, uncleaned, staged, stage);
      SwappedMeansWritten(files, uncleaned, before, staged, writes, stage, stage + 1);
    case Undone(_) =>
      SweptAsBefore(files, uncleaned, before, stage);
    case UndoFailed(k, _) =>
      GaveUpMeansLeft(files, uncleaned, before, staged, writes, stage, k);
      KeptMeansOnly(uncleaned, before, staged, writes, stage);
      SweptOnly(files, uncleaned, before, writes, stage);
  }

  lemma SweptOnly(files: map<Path, Content>, uncleaned: map<Path, Content>, before: map<Path, Content>,
                  writes: seq<Write>, stage: nat)
    requires SweptStage(files, uncleaned, stage)
    requires OnlyTargets(uncleaned, before, writes, stage)
    ensures OnlyTargets(files, before, writes, stage)
  {
    forall p | !InStage(p, stage) && !(p.Target? && p.name in Names(writes))
      ensures At(files, p) == At(before, p)
    {
      SweptKeeps(files, uncleaned, stage, p);
    }
  }

  // ----- what becomes of the originals

  /** The original of an output up to the `k`th is in its backup if the removal of the directory
      kept that, and nowhere in the directory otherwise. */
  ghost predicate BackupsLeft(files: map<Path, Content>, before: map<Path, Content>, writes: seq<Write>, stage: nat,
                              k: nat, fault: Fault) {
    forall i :: 0 <= i <= k < |writes| ==>
      var backup := Backup(stage, writes[i].name);
      At(files, backup) == if Keeps(fault, backup) then At(before, Target(writes[i].name)) else None
  }

  lemma BackupsRemain(files: map<Path, Content>, uncleaned: map<Path, Content>, before: map<Path, Content>,
                      staged: seq<Staged>, writes: seq<Write>, stage: nat, k: nat, fault: Fault)
    requires Named(staged, writes, stage) && GaveUpAt(uncleaned, before, staged, k)
    requires Remains(files, uncleaned, stage, fault)
    ensures BackupsLeft(files, before, writes, stage, k, fault)
  {
    forall i | 0 <= i <= k
      ensures var backup := Backup(stage, writes[i].name);
              At(files, backup) == if Keeps(fault, backup) then At(before, Target(writes[i].name)) else None
    {
      assert staged[i].write == writes[i] && InStage(BackupOf(staged[i]), stage);
      assert At(uncleaned, BackupOf(staged[i])) == At(before, TargetOf(staged[i]));
    }
  }

  /** A rollback that fails at output `k` keeps the original of `name` from its target: its new
      content is another, or the rollback failed after removing that. */
  predicate Forfeits(files: map<Path, Content>, before: map<Path, Content>, writes: seq<Write>, k: nat, name: string) {
    exists i :: 0 <= i < |writes| && i <= k && writes[i].name == name &&
      Target(name) in before && (before[Target(name)] != writes[i].content || (i == k && Target(name) !in files))
  }

  /** A rollback that failed at output `k` has lost exactly the originals that it keeps from their
      targets and whose backups the removal of the directory did not keep. */
  lemma LostExactly(files: map<Path, Content>, before: map<Path, Content>, writes: seq<Write>, stage: nat, k: nat,
                    fault: Fault, name: string)
    requires LeftAt(files, before, writes, k) && OnlyTargets(files, before, writes, stage)
    requires BackupsLeft(files, before, writes, stage, k, fault)
    requires forall p :: p in before && !p.Target? ==> p.stage < stage
    ensures !Survives(files, before, name, stage) <==>
            && Forfeits(files, before, writes, k, name)
            && !Keeps(fault, Backup(stage, name))
  {
    forall n | n > stage
      ensures Backup(n, name) !in files
    {
      assert At(files, Backup(n, name)) == At(before, Backup(n, name));
    }
    if At(files, Target(name)) != At(before, Target(name)) && Target(name) in before {
      assert name !in Names(writes) ==> At(files, Target(name)) == At(before, Target(name));
      var i :| 0 <= i < |writes| && writes[i].name == name;
      assert i <= k;
      assert At(files, Backup(stage, name)).Some? <==> Keeps(fault, Backup(stage, name));
    }
  }

  /** Which originals are lost: with a finished rollback none, with a failed one those named
      above, where `fault` is what became of the removal of the directory.  An installation
      replaces the originals on purpose. */
  ghost predicate LossesTold(files: map<Path, Content>, before: map<Path, Content>, writes: seq<Write>, stage: nat,
                             result: Result, fault: Fault) {
    match result
    case InstalledAll(_) => true
    case Undone(_) => forall name :: Survives(files, before, name, stage)
    case UndoFailed(k, _) =>
      && k < |writes|
      && forall name :: !Survives(files, before, name, stage) <==>
                          && Forfeits(files, before, writes, k, name)
                          && !Keeps(fault, Backup(stage, name))
  }

  lemma PromisedMeansTold(files: map<Path, Content>, before: map<Path, Content>, writes: seq<Write>, stage: nat,
                          result: Result, fault: Fault)
    requires Promised(files, before, writes, stage, result)
    requires result.UndoFailed? ==> BackupsLeft(files, before, writes, stage, result.at, fault)
    requires forall p :: p in before && !p.Target? ==> p.stage < stage
    ensures LossesTold(files, before, writes, stage, result, fault)
  {
    if result.UndoFailed? {
      var k := result.at;
      forall name
        ensures !Survives(files, before, name, stage) <==>
                && Forfeits(files, before, writes, k, name)
                && !Keeps(fault, Backup(stage, name))
      {
        LostExactly(files, before, writes, stage, k, fault, name);
      }
    }
  }

  // ----- the installation

  ghost predicate ValidStore(s: Store) {
    && (forall p :: p in s.files && !p.Target? ==> p.stage < s.nextStage)
    && (forall n :: n in s.stages ==> n < s.nextStage)
  }

  lemma RemovingSound(plan: Plan, s: Store, stage: nat)
    ensures var (s', ok) := RemovingStage(plan, s, stage);
            && SweptStage(s'.files, s.files, stage) && (ok ==> StageGone(s'.files, stage))
            && Remains(s'.files, s.files, stage, plan(s.ops)) && s'.ops == s.ops + 1
            && s'.stages == (if ok then s.stages - {stage} else s.stages)
            && ToldBy(ok, s.failed, s'.failed, Cleaning) && AsPlanned(plan, s, s')
  {
    OneStep(plan, s.ops);
  }

  /** Removing the directory after an attempt. */
  lemma RemovedSound(plan: Plan, s: Store, before: map<Path, Content>, staged: seq<Staged>, writes: seq<Write>,
                     stage: nat, result: Result)
    requires writes != [] && StageGone(before, stage)
    requires forall p :: p in before && !p.Target? ==> p.stage < stage
    requires Attempted(s.files, before, staged, writes, stage, result)
    ensures var (s', cleaned) := RemovingStage(plan, s, stage);
            var final := result.(cleaned := cleaned);
            && Promised(s'.files, before, writes, stage, final)
            && LossesTold(s'.files, before, writes, stage, final, plan(s.ops))
  {
    RemovingSound(plan, s, stage);
    var (s', cleaned) := RemovingStage(plan, s, stage);
    var final := result.(cleaned := cleaned);
    AttemptedMeansPromised(s'.files, s.files, before, staged, writes, stage, final);
    if result.UndoFailed? {
      BackupsRemain(s'.files, s.files, before, staged, writes, stage, result.at, plan(s.ops));
    }
    PromisedMeansTold(s'.files, before, writes, stage, final, plan(s.ops));
  }

  lemma InstallingFiles(plan: Plan, s: Store, writes: seq<Write>) returns (s': Store, result: Result)
    requires ValidStore(s) && writes != []
    ensures (s', result) == Installing(plan, s, writes)
    ensures s'.ops > 0 && Promised(s'.files, s.files, writes, s.nextStage, result)
    ensures LossesTold(s'.files, s.files, writes, s.nextStage, result, plan(s'.ops - 1))
  {
    var stage := s.nextStage;
    var (s1, ok) := MakingStage(plan, s);
    if ok {
      AttemptingSound(plan, s1, writes, stage);
      var (s2, attempt) := Attempting(plan, s1, writes, stage);
      RemovedSound(plan, s2, s.files, Records(plan, s1, writes, stage), writes, stage, attempt);
      RemovingSound(plan, s2, stage);
      var (s3, cleaned) := RemovingStage(plan, s2, stage);
      s', result := s3, attempt.(cleaned := cleaned);
    } else {
      s', result := s1, Undone(true);
    }
  }

  lemma InstallingTold(plan: Plan, s: Store, writes: seq<Write>) returns (s': Store, result: Result)
    requires ValidStore(s) && writes != []
    ensures (s', result) == Installing(plan, s, writes)
    ensures Tells(result, s.failed, s'.failed) && (DistinctNames(writes) ==> AsPlanned(plan, s, s'))
    ensures result.cleaned <==> s'.failed.cleaning == s.failed.cleaning
    ensures result.cleaned <==> s'.stages == s.stages
  {
    var stage := s.nextStage;
    var (s1, ok) := MakingStage(plan, s);
    OneStep(plan, s.ops);
    if ok {
      AttemptingSound(plan, s1, writes, stage);
      var (s2, attempt) := Attempting(plan, s1, writes, stage);
      RemovingSound(plan, s2, stage);
      var (s3, cleaned) := RemovingStage(plan, s2, stage);
      if DistinctNames(writes) {
        AsPlannedTwice(plan, s, s1, s2);
        AsPlannedTwice(plan, s, s2, s3);
      }
      assert stage !in s.stages;
      s', result := s3, attempt.(cleaned := cleaned);
    } else {
      s', result := s1, Undone(true);
    }
  }

  /** What an installation from `s` that ends in `s'` promises.  Its result is told by the steps
      in which operations failed, and the staging directory is gone exactly when its removal,
      the last operation, did not fail. */
  ghost predicate Sound(plan: Plan, s: Store, s': Store, writes: seq<Write>, result: Result) {
    && Promised(s'.files, s.files, writes, s.nextStage, result)
    && s'.ops > 0 && LossesTold(s'.files, s.files, writes, s.nextStage, result, plan(s'.ops - 1))
    && Tells(result, s.failed, s'.failed)
    && (result.cleaned <==> s'.failed.cleaning == s.failed.cleaning)
    && (result.cleaned <==> s'.stages == s.stages)
    && (DistinctNames(writes) ==> AsPlanned(plan, s, s'))
  }

  /** The installation, for every plan of failures. */
  lemma InstallingSound(plan: Plan, s: Store, writes: seq<Write>)
    requires ValidStore(s) && writes != []
    ensures var (s', result) := Installing(plan, s, writes); Sound(plan, s, s', writes, result)
  {
    var s', result := InstallingFiles(plan, s, writes);
    var s'', result' := InstallingTold(plan, s, writes);
  }

  /** Without faults everything is installed. */
  lemma FaultlessInstallation(plan: Plan, s: Store, writes: seq<Write>)
    requires ValidStore(s) && writes != [] && DistinctNames(writes)
    requires var (s', _) := Installing(plan, s, writes); forall i :: s.ops <= i < s'.ops ==> plan(i).Works?
    ensures Installing(plan, s, writes).1 == InstalledAll(true)
  {
    InstallingSound(plan, s, writes);
    NoFaults(plan, s.ops, Installing(plan, s, writes).0.ops);
  }

  /** A plan that loses an original: the new file cannot be moved in, the original cannot be
      moved back, and the directory with the original in it is removed. */
  lemma OriginalLost()
    ensures var plan: Plan := i => if i == 4 || i == 5 then Fails(None, {}) else Works;
            var s := Store(map[Target("plan") := "old"], {}, 0, 0, Tally(0, 0, 0, 0));
            var (s', result) := Installing(plan, s, [Write("plan", "new")]);
            && ValidStore(s) && result == UndoFailed(0, true) && s'.files == map[]
            && !Survives(s'.files, s.files, "plan", 0)
  {
    var plan: Plan := i => if i == 4 || i == 5 then Fails(None, {}) else Works;
    var s := Store(map[Target("plan") := "old"], {}, 0, 0, Tally(0, 0, 0, 0));
    var writes := [Write("plan", "new")];
    var w := Staged(writes[0], 0, true, false, false);
    var (s1, _) := MakingStage(plan, s);
    var s2 := StagingAll(plan, s1, writes, 0, []).0;
    assert [] + [w] == [w];
    var moved := w.(originalMoved := true);
    assert SwappingIn(plan, s2, w).1 == moved && !SwappingIn(plan, s2, w).2;
    var s3 := SwappingIn(plan, s2, w).0;
    assert s3.files == map[Backup(0, "plan") := "old", Next(0, "plan") := "new"] && s3.ops == 5;
    assert UndoingOne(plan, s3, moved).1 == false;
  }

  // ----- the code

  method InstallEntry(disk: Disk, w: Staged) returns (w': Staged, ok: bool)
    modifies disk`files, disk`ops, disk`failed
    ensures (disk.Now(), w', ok) == SwappingIn(disk.plan, old(disk.Now()), w)
  {
    w' := w;
    if TargetOf(w) in disk.files {
      ok := disk.Rename(TargetOf(w), BackupOf(w));
      if !ok {
        return;
      }
      w' := w'.(originalMoved := true);
    }
    ok := disk.Rename(NextOf(w), TargetOf(w));
    if ok {
      w' := w'.(installed := true);
    }
  }

  method InstallEntries(disk: Disk, staged: seq<Staged>) returns (staged': seq<Staged>, k: nat)
    modifies disk`files, disk`ops, disk`failed
    ensures (disk.Now(), staged', k) == SwappingAll(disk.plan, old(disk.Now()), staged, 0)
  {
    staged', k := staged, 0;
    while k < |staged'|
      invariant 0 <= k <= |staged'|
      invariant SwappingAll(disk.plan, old(disk.Now()), staged, 0) == SwappingAll(disk.plan, disk.Now(), staged', k)
      decreases |staged'| - k
    {
      var w, ok := InstallEntry(disk, staged'[k]);
      staged' := staged'[k := w];
      if !ok {
        return;
      }
      k := k + 1;
    }
  }

  method UndoEntry(disk: Disk, w: Staged) returns (ok: bool)
    modifies disk`files, disk`ops, disk`failed
    ensures (disk.Now(), ok) == UndoingOne(disk.plan, old(disk.Now()), w)
  {
    ok := true;
    if w.installed && TargetOf(w) in disk.files {
      ok := disk.Unlink(TargetOf(w));
      if !ok {
        return;
      }
    }
    if BackupOf(w) in disk.files {
      ok := disk.Rename(BackupOf(w), TargetOf(w));
    }
  }

  /** Undoes the entries in reverse order; the first failure ends it. */
  method UndoEntries(disk: Disk, staged: seq<Staged>) returns (result: Result)
    modifies disk`files, disk`ops, disk`failed
    ensures (disk.Now(), result) == RollingBack(disk.plan, old(disk.Now()), staged)
  {
    var k := |staged|;
    while k > 0
      invariant 0 <= k <= |staged|
      invariant UndoingAll(disk.plan, old(disk.Now()), staged, |staged|) == UndoingAll(disk.plan, disk.Now(), staged, k)
    {
      k := k - 1;
      var ok := UndoEntry(disk, staged[k]);
      if !ok {
        return UndoFailed(k, true);
      }
    }
    return Undone(true);
  }

  method StageEntries(disk: Disk, writes: seq<Write>, stage: nat) returns (staged: seq<Staged>, ok: bool)
    modifies disk`files, disk`ops, disk`failed
    ensures (disk.Now(), staged, ok) == StagingAll(disk.plan, old(disk.Now()), writes, stage, [])
  {
    staged, ok := [], true;
    while |staged| < |writes|
      invariant |staged| <= |writes| && ok
      invariant StagingAll(disk.plan, old(disk.Now()), writes, stage, []) ==
                StagingAll(disk.plan, disk.Now(), writes, stage, staged)
      decreases |writes| - |staged|
    {
      var write := writes[|staged|];
      var w := Staged(write, stage, Target(write.name) in disk.files, false, false);
      ok := disk.Inspect();
      if ok {
        ok := disk.Create(NextOf(w), write.content);
      }
      if !ok {
        return;
      }
      staged := staged + [w];
    }
  }

  method Attempt(disk: Disk, writes: seq<Write>, stage: nat) returns (result: Result)
    modifies disk`files, disk`ops, disk`failed
    ensures (disk.Now(), result) == Attempting(disk.plan, old(disk.Now()), writes, stage)
  {
    var staged, ok := StageEntries(disk, writes, stage);
    if ok {
      var k;
      staged, k := InstallEntries(disk, staged);
      if k == |staged| {
        return InstalledAll(true);
      }
    }
    result := UndoEntries(disk, staged);
  }

  /** All files are installed, or with a completed rollback everything is as before.  A rollback
      that fails at one file leaves the new contents of the files before it; the directory is
      removed even so, and with it every original that its target does not hold. */
  method InstallOutputs(disk: Disk, writes: seq<Write>) returns (result: Result)
    requires disk.Valid()
    requires writes != []
    modifies disk
    ensures (disk.Now(), result) == Installing(disk.plan, old(disk.Now()), writes)
    ensures Sound(disk.plan, old(disk.Now()), disk.Now(), writes, result)
  {
    InstallingSound(disk.plan, disk.Now(), writes);
    var stage, ok := disk.MakeStage();
    if !ok {
      return Undone(true);
    }
    result := Attempt(disk, writes, stage);
    ok := disk.RemoveStage(stage);
    result := result.(cleaned := ok);
  }
}
