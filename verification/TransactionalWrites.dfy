/** Installing several files as one transaction: stage every new content, swap the files in
    one by one, and undo the swaps in reverse if one of them fails.
 */
module TransactionalWrites {
  import opened Basics
  import opened FileSystem

  datatype Write = Write(name: string, content: Content)

  datatype Staged = Staged(
    write: Write,
    stage: nat,
    originalExists: bool,
    originalMoved: bool,
    installed: bool)

  /** How a transaction ended.  `cleaned` says whether all staging directories are gone; the
      caller sees an error in every case but Installed(true). */
  datatype Outcome =
    | Refused
    | StagingFailed(cleaned: bool)
    | Installed(cleaned: bool)
    | RolledBack(cleaned: bool)
    | RollbackFailed

  function TargetOf(w: Staged): Path {
    Target(w.write.name)
  }

  function NextOf(w: Staged): Path {
    Next(w.stage, w.write.name)
  }

  function BackupOf(w: Staged): Path {
    Backup(w.stage, w.write.name)
  }

  function Owned(w: Staged): set<Path> {
    {TargetOf(w), NextOf(w), BackupOf(w)}
  }

  // ----- where one write stands, relative to the files before the transaction

  /** Its new content is staged and its target untouched. */
  ghost predicate Untouched(files: map<Path, Content>, before: map<Path, Content>, w: Staged) {
    && At(files, TargetOf(w)) == At(before, TargetOf(w))
    && At(files, NextOf(w)) == Some(w.write.content)
    && BackupOf(w) !in files
    && !w.originalMoved && !w.installed
  }

  /** Its original is in the backup and nothing is in its place. */
  ghost predicate Displaced(files: map<Path, Content>, before: map<Path, Content>, w: Staged) {
    && TargetOf(w) !in files
    && At(files, NextOf(w)) == Some(w.write.content)
    && At(files, BackupOf(w)) == At(before, TargetOf(w))
    && w.originalExists && w.originalMoved && !w.installed
  }

  /** Its new content is in place and its original, if any, in the backup. */
  ghost predicate Swapped(files: map<Path, Content>, before: map<Path, Content>, w: Staged) {
    && At(files, TargetOf(w)) == Some(w.write.content)
    && NextOf(w) !in files
    && At(files, BackupOf(w)) == At(before, TargetOf(w))
    && w.originalMoved == w.originalExists && w.installed
  }

  /** Its target is as before. */
  ghost predicate Restored(files: map<Path, Content>, before: map<Path, Content>, w: Staged) {
    At(files, TargetOf(w)) == At(before, TargetOf(w))
  }

  /** Its original, if there was one, survives at the target or in the backup. */
  ghost predicate Recoverable(files: map<Path, Content>, before: map<Path, Content>, w: Staged) {
    TargetOf(w) in before ==>
      At(files, TargetOf(w)) == At(before, TargetOf(w)) || At(files, BackupOf(w)) == At(before, TargetOf(w))
  }

  /** The records of a transaction: distinct targets, staging directories that were fresh, and
      truthful notes of which originals existed. */
  ghost predicate WellStaged(staged: seq<Staged>, before: map<Path, Content>, firstStage: nat, nextStage: nat) {
    && (forall i, j :: 0 <= i < j < |staged| ==> staged[i].write.name != staged[j].write.name)
    && (forall i :: 0 <= i < |staged| ==> firstStage <= staged[i].stage < nextStage)
    && (forall i :: 0 <= i < |staged| ==> (staged[i].originalExists <==> TargetOf(staged[i]) in before))
    && (forall p :: p in before && !p.Target? ==> p.stage < firstStage)
  }

  /** Nothing outside the transaction's own paths has changed. */
  ghost predicate OthersKept(files: map<Path, Content>, before: map<Path, Content>, staged: seq<Staged>) {
    forall p :: (forall i :: 0 <= i < |staged| ==> p !in Owned(staged[i])) ==> At(files, p) == At(before, p)
  }

  /** A change confined to the paths of write `i` cannot be seen by write `j`. */
  lemma OwnedDisjoint(staged: seq<Staged>, before: map<Path, Content>, firstStage: nat, nextStage: nat, i: nat, j: nat)
    requires WellStaged(staged, before, firstStage, nextStage)
    requires i < |staged| && j < |staged| && i != j
    ensures Owned(staged[i]) !! Owned(staged[j])
  {
  }

  ghost predicate SameOutside(files: map<Path, Content>, before: map<Path, Content>, owned: set<Path>) {
    forall p :: p !in owned ==> At(files, p) == At(before, p)
  }

  /** Before and during the swaps a write is in one of three places. */
  ghost predicate Placed(files: map<Path, Content>, before: map<Path, Content>, w: Staged) {
    || Untouched(files, before, w)
    || Displaced(files, before, w)
    || Swapped(files, before, w)
  }

  // ----- which failures explain a result

  /** The tally grew only in this step, and `ok` tells that it did not grow at all.  In every
      step but undoing the first failure is also the last. */
  ghost predicate ToldBy(ok: bool, before: Tally, after: Tally, phase: Phase) {
    && (ok <==> after == before)
    && if phase.Undoing? then after == before.(undoing := after.undoing) && before.undoing <= after.undoing
       else after == before || after == Counted(before, phase)
  }

  // ----- one write

  /** Moves the original away, if there is one, and the new content into its place. */
  method SwapOne(disk: Disk, w: Staged, ghost before: map<Path, Content>) returns (w': Staged, ok: bool)
    requires Untouched(disk.files, before, w)
    requires w.originalExists <==> TargetOf(w) in before
    modifies disk`files, disk`ops, disk`failed
    ensures ToldBy(ok, old(disk.failed), disk.failed, Swapping)
    ensures AsPlanned(disk.plan, old(disk.Now()), disk.Now())
    ensures w' == w.(originalMoved := w'.originalMoved, installed := w'.installed)
    ensures SameOutside(disk.files, old(disk.files), Owned(w))
    ensures if ok then Swapped(disk.files, before, w')
            else Untouched(disk.files, before, w') || Displaced(disk.files, before, w')
  {
    w' := w;
    ghost var start := disk.Now();
    if w.originalExists {
      ok := disk.Rename(TargetOf(w), BackupOf(w));
      if !ok {
        return;
      }
      w' := w'.(originalMoved := true);
    }
    ghost var middle := disk.Now();
    ok := disk.Rename(NextOf(w), TargetOf(w));
    AsPlannedTwice(disk.plan, start, middle, disk.Now());
    if ok {
      w' := w'.(installed := true);
    }
  }

  /** Takes the new content away and puts the original back. */
  method UndoOne(disk: Disk, w: Staged, ghost before: map<Path, Content>) returns (ok: bool)
    requires Placed(disk.files, before, w)
    requires w.originalExists <==> TargetOf(w) in before
    modifies disk`files, disk`ops, disk`failed
    ensures ToldBy(ok, old(disk.failed), disk.failed, Undoing)
    ensures AsPlanned(disk.plan, old(disk.Now()), disk.Now())
    ensures SameOutside(disk.files, old(disk.files), Owned(w))
    ensures ok ==> Restored(disk.files, before, w)
    ensures Recoverable(disk.files, before, w)
  {
    ok := true;
    ghost var start := disk.Now();
    if w.installed && TargetOf(w) in disk.files {
      ok := disk.Unlink(TargetOf(w));
      if !ok {
        return;
      }
    }
    ghost var middle := disk.Now();
    if w.originalMoved && BackupOf(w) in disk.files {
      ok := disk.Rename(BackupOf(w), TargetOf(w));
      AsPlannedTwice(disk.plan, start, middle, disk.Now());
    }
  }

  // ----- all writes

  ghost predicate AllPlaced(files: map<Path, Content>, before: map<Path, Content>, staged: seq<Staged>) {
    forall i :: 0 <= i < |staged| ==> Placed(files, before, staged[i])
  }

  /** What one write looks like is decided by its own three paths. */
  lemma SameSlots(files: map<Path, Content>, earlier: map<Path, Content>, before: map<Path, Content>, owned: set<Path>,
                  w: Staged)
    requires SameOutside(files, earlier, owned)
    requires owned !! Owned(w)
    ensures Untouched(files, before, w) <==> Untouched(earlier, before, w)
    ensures Displaced(files, before, w) <==> Displaced(earlier, before, w)
    ensures Swapped(files, before, w) <==> Swapped(earlier, before, w)
    ensures Restored(files, before, w) <==> Restored(earlier, before, w)
    ensures Recoverable(files, before, w) <==> Recoverable(earlier, before, w)
  {
    assert At(files, TargetOf(w)) == At(earlier, TargetOf(w));
    assert At(files, NextOf(w)) == At(earlier, NextOf(w));
    assert At(files, BackupOf(w)) == At(earlier, BackupOf(w));
  }

  lemma OthersStayKept(files: map<Path, Content>, earlier: map<Path, Content>, before: map<Path, Content>,
                       staged: seq<Staged>, k: nat)
    requires k < |staged|
    requires OthersKept(earlier, before, staged)
    requires SameOutside(files, earlier, Owned(staged[k]))
    ensures OthersKept(files, before, staged)
  {
    forall p | forall i :: 0 <= i < |staged| ==> p !in Owned(staged[i])
      ensures At(files, p) == At(before, p)
    {
      assert p !in Owned(staged[k]);
    }
  }

  /** Updating the flags of a record changes none of its paths. */
  lemma FlagsOnly(staged: seq<Staged>, k: nat, w: Staged, files: map<Path, Content>, before: map<Path, Content>,
                  firstStage: nat, nextStage: nat)
    requires k < |staged|
    requires w == staged[k].(originalMoved := w.originalMoved, installed := w.installed)
    requires WellStaged(staged, before, firstStage, nextStage)
    requires OthersKept(files, before, staged)
    ensures WellStaged(staged[k := w], before, firstStage, nextStage)
    ensures OthersKept(files, before, staged[k := w])
  {
    var updated := staged[k := w];
    forall p | forall i :: 0 <= i < |updated| ==> p !in Owned(updated[i])
      ensures At(files, p) == At(before, p)
    {
      forall i | 0 <= i < |staged|
        ensures p !in Owned(staged[i])
      {
        assert Owned(updated[i]) == Owned(staged[i]);
      }
    }
  }

  /** The first `k` writes are swapped in and the others untouched. */
  ghost predicate SwappedUpTo(files: map<Path, Content>, before: map<Path, Content>, staged: seq<Staged>, k: nat) {
    && k <= |staged|
    && (forall i :: 0 <= i < k ==> Swapped(files, before, staged[i]))
    && (forall i :: k <= i < |staged| ==> Untouched(files, before, staged[i]))
  }

  /** The effect of one swap on all the writes. */
  lemma SwapStep(files: map<Path, Content>, earlier: map<Path, Content>, before: map<Path, Content>,
                 staged: seq<Staged>, k: nat, w: Staged, firstStage: nat, nextStage: nat)
    requires k < |staged|
    requires WellStaged(staged, before, firstStage, nextStage)
    requires SwappedUpTo(earlier, before, staged, k)
    requires SameOutside(files, earlier, Owned(staged[k]))
    requires Placed(files, before, w)
    ensures AllPlaced(files, before, staged[k := w])
    ensures Swapped(files, before, w) ==> SwappedUpTo(files, before, staged[k := w], k + 1)
  {
    var updated := staged[k := w];
    forall i | 0 <= i < |staged| && i != k
      ensures i < k ==> Swapped(files, before, updated[i])
      ensures i > k ==> Untouched(files, before, updated[i])
    {
      OwnedDisjoint(staged, before, firstStage, nextStage, k, i);
      SameSlots(files, earlier, before, Owned(staged[k]), staged[i]);
    }
  }

  /** A transaction with its first `k` writes swapped in. */
  ghost predicate InFlight(files: map<Path, Content>, before: map<Path, Content>, staged: seq<Staged>, k: nat,
                           firstStage: nat, nextStage: nat) {
    && WellStaged(staged, before, firstStage, nextStage)
    && OthersKept(files, before, staged)
    && SwappedUpTo(files, before, staged, k)
  }

  /** A transaction that stopped with a write in any of the three places. */
  ghost predicate Stopped(files: map<Path, Content>, before: map<Path, Content>, staged: seq<Staged>, firstStage: nat,
                          nextStage: nat) {
    && WellStaged(staged, before, firstStage, nextStage)
    && OthersKept(files, before, staged)
    && AllPlaced(files, before, staged)
  }

  lemma FlightStep(files: map<Path, Content>, earlier: map<Path, Content>, before: map<Path, Content>,
                   staged: seq<Staged>, k: nat, w: Staged, firstStage: nat, nextStage: nat)
    requires k < |staged|
    requires InFlight(earlier, before, staged, k, firstStage, nextStage)
    requires w == staged[k].(originalMoved := w.originalMoved, installed := w.installed)
    requires SameOutside(files, earlier, Owned(staged[k]))
    requires Placed(files, before, w)
    ensures Stopped(files, before, staged[k := w], firstStage, nextStage)
    ensures Swapped(files, before, w) ==> InFlight(files, before, staged[k := w], k + 1, firstStage, nextStage)
  {
    OthersStayKept(files, earlier, before, staged, k);
    FlagsOnly(staged, k, w, files, before, firstStage, nextStage);
    SwapStep(files, earlier, before, staged, k, w, firstStage, nextStage);
  }

  /** The records name the same writes and directories, whatever their flags say. */
  ghost predicate SameWrites(a: seq<Staged>, b: seq<Staged>) {
    |a| == |b| && forall i :: 0 <= i < |a| ==> a[i].write == b[i].write && a[i].stage == b[i].stage
  }

  /** Swaps the writes in order until one fails. */
  method SwapAll(disk: Disk, staged: seq<Staged>, ghost before: map<Path, Content>, ghost firstStage: nat)
    returns (staged': seq<Staged>, ok: bool)
    requires InFlight(disk.files, before, staged, 0, firstStage, disk.nextStage)
    modifies disk`files, disk`ops, disk`failed
    ensures ToldBy(ok, old(disk.failed), disk.failed, Swapping)
    ensures AsPlanned(disk.plan, old(disk.Now()), disk.Now())
    ensures SameWrites(staged', staged)
    ensures Stopped(disk.files, before, staged', firstStage, disk.nextStage)
    ensures ok ==> InFlight(disk.files, before, staged', |staged'|, firstStage, disk.nextStage)
  {
    staged', ok := staged, true;
    var k := 0;
    while k < |staged'|
      invariant 0 <= k <= |staged'|
      invariant SameWrites(staged', staged)
      invariant InFlight(disk.files, before, staged', k, firstStage, disk.nextStage)
      invariant ok && disk.failed == old(disk.failed) && AsPlanned(disk.plan, old(disk.Now()), disk.Now())
    {
      ghost var earlier, middle := disk.files, disk.Now();
      var w;
      w, ok := SwapOne(disk, staged'[k], before);
      AsPlannedTwice(disk.plan, old(disk.Now()), middle, disk.Now());
      FlightStep(disk.files, earlier, before, staged', k, w, firstStage, disk.nextStage);
      staged' := staged'[k := w];
      if !ok {
        return;
      }
      k := k + 1;
    }
  }

  /** The names whose targets are not as before. */
  function Lost(files: map<Path, Content>, before: map<Path, Content>, staged: seq<Staged>): set<string> {
    set w | w in staged && At(files, TargetOf(w)) != At(before, TargetOf(w)) :: w.write.name
  }

  /** Undoing one more write loses at most that one. */
  lemma LostStep(files: map<Path, Content>, earlier: map<Path, Content>, before: map<Path, Content>, head: Staged,
                 rest: seq<Staged>)
    requires forall w :: w in rest && Restored(earlier, before, w) ==> Restored(files, before, w)
    ensures |Lost(files, before, [head] + rest)| <= |Lost(earlier, before, rest)| + 1
    ensures Restored(files, before, head) ==> |Lost(files, before, [head] + rest)| <= |Lost(earlier, before, rest)|
  {
    var more := if Restored(files, before, head) then {} else {head.write.name};
    assert Lost(files, before, [head] + rest) <= Lost(earlier, before, rest) + more;
    SubsetSize(Lost(files, before, [head] + rest), Lost(earlier, before, rest) + more);
  }

  /** The writes from `k` on have been undone, as far as that went. */
  ghost predicate UndoneFrom(files: map<Path, Content>, before: map<Path, Content>, staged: seq<Staged>, k: nat) {
    && k <= |staged|
    && (forall i :: 0 <= i < k ==> Placed(files, before, staged[i]))
    && (forall i :: k <= i < |staged| ==> Recoverable(files, before, staged[i]))
  }

  ghost predicate AllRestored(files: map<Path, Content>, before: map<Path, Content>, staged: seq<Staged>) {
    forall w :: w in staged ==> Restored(files, before, w)
  }

  /** The effect of undoing write `k` on all the writes. */
  lemma UndoStep(files: map<Path, Content>, earlier: map<Path, Content>, before: map<Path, Content>,
                 staged: seq<Staged>, k: nat, firstStage: nat, nextStage: nat)
    requires k < |staged|
    requires WellStaged(staged, before, firstStage, nextStage)
    requires UndoneFrom(earlier, before, staged, k + 1)
    requires SameOutside(files, earlier, Owned(staged[k]))
    requires Recoverable(files, before, staged[k])
    ensures UndoneFrom(files, before, staged, k)
    ensures forall i :: k < i < |staged| && Restored(earlier, before, staged[i]) ==> Restored(files, before, staged[i])
  {
    forall i | 0 <= i < |staged| && i != k
      ensures Placed(files, before, staged[i]) <==> Placed(earlier, before, staged[i])
      ensures Restored(files, before, staged[i]) <==> Restored(earlier, before, staged[i])
      ensures Recoverable(files, before, staged[i]) <==> Recoverable(earlier, before, staged[i])
    {
      OwnedDisjoint(staged, before, firstStage, nextStage, k, i);
      SameSlots(files, earlier, before, Owned(staged[k]), staged[i]);
    }
  }

  lemma UndoCounts(files: map<Path, Content>, earlier: map<Path, Content>, before: map<Path, Content>,
                   staged: seq<Staged>, k: nat)
    requires k < |staged|
    requires forall i :: k < i < |staged| && Restored(earlier, before, staged[i]) ==> Restored(files, before, staged[i])
    ensures |Lost(files, before, staged[k..])| <= |Lost(earlier, before, staged[k + 1..])| + 1
    ensures Restored(files, before, staged[k]) ==>
            |Lost(files, before, staged[k..])| <= |Lost(earlier, before, staged[k + 1..])|
    ensures AllRestored(earlier, before, staged[k + 1..]) && Restored(files, before, staged[k]) ==>
            AllRestored(files, before, staged[k..])
  {
    assert staged[k..] == [staged[k]] + staged[k + 1..];
    LostStep(files, earlier, before, staged[k], staged[k + 1..]);
  }

  /** Undoes the writes in reverse order, going on after a failure: no more targets are lost
      than operations failed. */
  method UndoAll(disk: Disk, staged: seq<Staged>, ghost before: map<Path, Content>, ghost firstStage: nat)
    returns (ok: bool)
    requires WellStaged(staged, before, firstStage, disk.nextStage)
    requires AllPlaced(disk.files, before, staged)
    requires OthersKept(disk.files, before, staged)
    modifies disk`files, disk`ops, disk`failed
    ensures ToldBy(ok, old(disk.failed), disk.failed, Undoing)
    ensures AsPlanned(disk.plan, old(disk.Now()), disk.Now())
    ensures OthersKept(disk.files, before, staged)
    ensures ok ==> AllRestored(disk.files, before, staged)
    ensures forall i :: 0 <= i < |staged| ==> Recoverable(disk.files, before, staged[i])
    ensures |Lost(disk.files, before, staged)| <= disk.failed.undoing - old(disk.failed.undoing)
  {
    ok := true;
    var k := |staged|;
    while k > 0
      invariant 0 <= k <= |staged|
      invariant OthersKept(disk.files, before, staged)
      invariant UndoneFrom(disk.files, before, staged, k)
      invariant ok ==> AllRestored(disk.files, before, staged[k..])
      invariant ToldBy(ok, old(disk.failed), disk.failed, Undoing) && AsPlanned(disk.plan, old(disk.Now()), disk.Now())
      invariant |Lost(disk.files, before, staged[k..])| <= disk.failed.undoing - old(disk.failed.undoing)
    {
      k := k - 1;
      ghost var earlier, middle := disk.files, disk.Now();
      var undone := UndoOne(disk, staged[k], before);
      AsPlannedTwice(disk.plan, old(disk.Now()), middle, disk.Now());
      ok := ok && undone;
      OthersStayKept(disk.files, earlier, before, staged, k);
      UndoStep(disk.files, earlier, before, staged, k, firstStage, disk.nextStage);
      UndoCounts(disk.files, earlier, before, staged, k);
    }
    assert staged[0..] == staged;
  }

  // ----- staging and cleaning up

  ghost predicate DistinctNames(writes: seq<Write>) {
    forall i, j :: 0 <= i < j < |writes| ==> writes[i].name != writes[j].name
  }

  ghost predicate TargetsKept(files: map<Path, Content>, before: map<Path, Content>) {
    forall name :: At(files, Target(name)) == At(before, Target(name))
  }

  /** Stages one write in a directory of its own.  The record exists as soon as its directory
      does, so that a failed write is cleaned up too. */
  method StageOne(disk: Disk, write: Write) returns (w: Option<Staged>, ok: bool)
    requires disk.Valid()
    modifies disk
    ensures disk.Valid()
    ensures ToldBy(ok, old(disk.failed), disk.failed, Staging)
    ensures AsPlanned(disk.plan, old(disk.Now()), disk.Now())
    ensures ok ==> w.Some?
    ensures w.None? ==>
              disk.files == old(disk.files) && disk.nextStage == old(disk.nextStage) && disk.stages == old(disk.stages)
    ensures w.Some? ==>
              && disk.stages == old(disk.stages) + {w.value.stage}
              && disk.nextStage == old(disk.nextStage) + 1
              && w.value == Staged(write, old(disk.nextStage), Target(write.name) in old(disk.files), false, false)
              && SameOutside(disk.files, old(disk.files), {NextOf(w.value)})
              && (ok ==> At(disk.files, NextOf(w.value)) == Some(write.content))
  {
    ghost var start := disk.Now();
    var originalExists := Target(write.name) in disk.files;
    ok := disk.Inspect();
    if !ok {
      return None, false;
    }
    ghost var inspected := disk.Now();
    var stage;
    stage, ok := disk.MakeStage();
    AsPlannedTwice(disk.plan, start, inspected, disk.Now());
    if !ok {
      return None, false;
    }
    ghost var made := disk.Now();
    var record := Staged(write, stage, originalExists, false, false);
    assert NextOf(record) !in disk.files;
    ok := disk.Create(NextOf(record), write.content);
    AsPlannedTwice(disk.plan, start, made, disk.Now());
    w := Some(record);
  }

  /** What holds while writes are being staged. */
  ghost predicate StagedSoFar(files: map<Path, Content>, before: map<Path, Content>, staged: seq<Staged>,
                              firstStage: nat, nextStage: nat) {
    && firstStage <= nextStage
    && WellStaged(staged, before, firstStage, nextStage)
    && OthersKept(files, before, staged)
    && TargetsKept(files, before)
    && (forall p :: p in files && !p.Target? ==> p.stage < nextStage)
  }

  lemma StagedSnoc(files: map<Path, Content>, earlier: map<Path, Content>, before: map<Path, Content>,
                   staged: seq<Staged>, w: Staged, firstStage: nat)
    requires StagedSoFar(earlier, before, staged, firstStage, w.stage)
    requires forall i :: 0 <= i < |staged| ==> staged[i].write.name != w.write.name
    requires w.originalExists <==> TargetOf(w) in earlier
    requires SameOutside(files, earlier, {NextOf(w)})
    ensures StagedSoFar(files, before, staged + [w], firstStage, w.stage + 1)
  {
    var all := staged + [w];
    assert At(earlier, TargetOf(w)) == At(before, TargetOf(w));
    assert WellStaged(all, before, firstStage, w.stage + 1);
    forall p | forall i :: 0 <= i < |all| ==> p !in Owned(all[i])
      ensures At(files, p) == At(before, p)
    {
      assert all[|staged|] == w;
      assert forall i :: 0 <= i < |staged| ==> all[i] == staged[i];
    }
    forall p | p in files && !p.Target?
      ensures p.stage < w.stage + 1
    {
      if p != NextOf(w) {
        assert At(files, p) == At(earlier, p);
      }
    }
    forall name
      ensures At(files, Target(name)) == At(before, Target(name))
    {
      assert At(files, Target(name)) == At(earlier, Target(name));
    }
  }

  lemma UntouchedSnoc(files: map<Path, Content>, earlier: map<Path, Content>, before: map<Path, Content>,
                      staged: seq<Staged>, w: Staged, firstStage: nat)
    requires StagedSoFar(earlier, before, staged, firstStage, w.stage)
    requires SwappedUpTo(earlier, before, staged, 0)
    requires SameOutside(files, earlier, {NextOf(w)})
    requires At(files, NextOf(w)) == Some(w.write.content)
    requires !w.originalMoved && !w.installed
    ensures SwappedUpTo(files, before, staged + [w], 0)
  {
    forall i | 0 <= i < |staged|
      ensures Untouched(files, before, staged[i])
    {
      assert NextOf(w) !in Owned(staged[i]);
      SameSlots(files, earlier, before, {NextOf(w)}, staged[i]);
    }
    assert At(files, TargetOf(w)) == At(earlier, TargetOf(w)) == At(before, TargetOf(w));
    assert At(files, BackupOf(w)) == At(earlier, BackupOf(w));
  }

  function StagesOf(staged: seq<Staged>): set<nat> {
    set w | w in staged :: w.stage
  }

  /** Beside the directories there were, exactly those of the records exist, one each. */
  ghost predicate OwnStages(staged: seq<Staged>, before: set<nat>, now: set<nat>) {
    && now == before + StagesOf(staged)
    && before !! StagesOf(staged)
    && forall i, j :: 0 <= i < j < |staged| ==> staged[i].stage != staged[j].stage
  }

  lemma OwnStagesSnoc(staged: seq<Staged>, before: set<nat>, now: set<nat>, w: Staged)
    requires OwnStages(staged, before, now) && w.stage !in now
    ensures OwnStages(staged + [w], before, now + {w.stage})
  {
    assert forall x :: x in staged + [w] <==> x in staged || x == w;
    assert forall i :: 0 <= i < |staged| ==> staged[i] in staged;
    assert StagesOf(staged + [w]) == StagesOf(staged) + {w.stage};
  }

  ghost predicate StagedIn(start: Store, now: Store, staged: seq<Staged>) {
    && StagedSoFar(now.files, start.files, staged, start.nextStage, now.nextStage)
    && OwnStages(staged, start.stages, now.stages)
  }

  lemma StagedInSnoc(start: Store, earlier: Store, now: Store, staged: seq<Staged>, w: Staged)
    requires StagedIn(start, earlier, staged)
    requires forall i :: 0 <= i < |staged| ==> staged[i].write.name != w.write.name
    requires w.originalExists <==> TargetOf(w) in earlier.files
    requires SameOutside(now.files, earlier.files, {NextOf(w)})
    requires w.stage == earlier.nextStage && now.nextStage == w.stage + 1
    requires w.stage !in earlier.stages && now.stages == earlier.stages + {w.stage}
    ensures StagedIn(start, now, staged + [w])
  {
    StagedSnoc(now.files, earlier.files, start.files, staged, w, start.nextStage);
    OwnStagesSnoc(staged, start.stages, earlier.stages, w);
  }

  method StageAll(disk: Disk, writes: seq<Write>) returns (staged: seq<Staged>, ok: bool)
    requires disk.Valid()
    requires DistinctNames(writes)
    modifies disk
    ensures StagedIn(old(disk.Now()), disk.Now(), staged)
    ensures ToldBy(ok, old(disk.failed), disk.failed, Staging)
    ensures AsPlanned(disk.plan, old(disk.Now()), disk.Now())
    ensures ok ==> |staged| == |writes| && SwappedUpTo(disk.files, old(disk.files), staged, 0)
    ensures ok ==> forall i :: 0 <= i < |writes| ==> staged[i].write == writes[i]
  {
    staged, ok := [], true;
    var k := 0;
    while k < |writes|
      invariant 0 <= k == |staged| <= |writes|
      invariant disk.Valid()
      invariant StagedIn(old(disk.Now()), disk.Now(), staged)
      invariant SwappedUpTo(disk.files, old(disk.files), staged, 0)
      invariant forall i :: 0 <= i < k ==> staged[i].write == writes[i]
      invariant ok && disk.failed == old(disk.failed) && AsPlanned(disk.plan, old(disk.Now()), disk.Now())
    {
      ghost var earlier, middle := disk.files, disk.Now();
      var w;
      w, ok := StageOne(disk, writes[k]);
      AsPlannedTwice(disk.plan, old(disk.Now()), middle, disk.Now());
      if w.Some? {
        StagedInSnoc(old(disk.Now()), middle, disk.Now(), staged, w.value);
        if ok {
          UntouchedSnoc(disk.files, earlier, old(disk.files), staged, w.value, old(disk.nextStage));
        }
        staged := staged + [w.value];
      }
      if !ok {
        return;
      }
      k := k + 1;
    }
  }

  ghost predicate InSomeStage(p: Path, staged: seq<Staged>) {
    exists i :: 0 <= i < |staged| && InStage(p, staged[i].stage)
  }

  /** Removes the staging directories in order; the first failure ends it. */
  method Cleanup(disk: Disk, staged: seq<Staged>, ghost before: set<nat>) returns (ok: bool)
    requires OwnStages(staged, before, disk.stages)
    modifies disk`files, disk`stages, disk`ops, disk`failed
    ensures Swept(disk.files, old(disk.files), staged)
    ensures ok ==> NoStagesLeft(disk.files, staged)
    ensures ok <==> disk.stages == before
    ensures exists k :: 0 <= k <= |staged| && OwnStages(staged[k..], before, disk.stages)
    ensures ToldBy(ok, old(disk.failed), disk.failed, Cleaning)
    ensures AsPlanned(disk.plan, old(disk.Now()), disk.Now())
  {
    ok := true;
    for k := 0 to |staged|
      invariant ok && Swept(disk.files, old(disk.files), staged)
      invariant forall p, i :: p in disk.files && 0 <= i < k ==> !InStage(p, staged[i].stage)
      invariant OwnStages(staged[k..], before, disk.stages)
      invariant disk.failed == old(disk.failed) && AsPlanned(disk.plan, old(disk.Now()), disk.Now())
    {
      ghost var middle := disk.Now();
      OwnStagesTail(staged[k..], before, disk.stages);
      assert staged[k..][1..] == staged[k + 1..];
      ok := disk.RemoveStage(staged[k].stage);
      AsPlannedTwice(disk.plan, old(disk.Now()), middle, disk.Now());
      if !ok {
        return;
      }
    }
  }

  lemma OwnStagesTail(staged: seq<Staged>, before: set<nat>, now: set<nat>)
    requires OwnStages(staged, before, now) && staged != []
    ensures staged[0].stage in now && staged[0].stage !in before
    ensures OwnStages(staged[1..], before, now - {staged[0].stage})
  {
    assert staged == [staged[0]] + staged[1..];
    assert StagesOf(staged) == {staged[0].stage} + StagesOf(staged[1..]);
  }

  /** With its own directories gone and every target as before, the disk is as before. */
  lemma CleanMeansUnchanged(files: map<Path, Content>, uncleaned: map<Path, Content>, before: map<Path, Content>,
                            staged: seq<Staged>, firstStage: nat, nextStage: nat)
    requires WellStaged(staged, before, firstStage, nextStage)
    requires OthersKept(uncleaned, before, staged)
    requires TargetsKept(uncleaned, before)
    requires Swept(files, uncleaned, staged) && NoStagesLeft(files, staged)
    ensures files == before
  {
    forall p
      ensures At(files, p) == At(before, p)
    {
      if InSomeStage(p, staged) {
        assert p !in files && p !in before;
      } else {
        assert At(files, p) == At(uncleaned, p);
        if p.Target? {
          assert At(uncleaned, Target(p.name)) == At(before, Target(p.name));
        } else {
          assert forall i :: 0 <= i < |staged| ==> !InStage(p, staged[i].stage);
          assert forall i :: 0 <= i < |staged| ==> p !in Owned(staged[i]);
        }
      }
    }
    SameAt(files, before);
  }

  lemma SameAt(a: map<Path, Content>, b: map<Path, Content>)
    requires forall p :: At(a, p) == At(b, p)
    ensures a == b
  {
    assert forall p :: p in a <==> p in b by {
      forall p
        ensures p in a <==> p in b
      {
        assert At(a, p) == At(b, p);
      }
    }
    assert forall p :: p in a ==> a[p] == b[p] by {
      forall p | p in a
        ensures a[p] == b[p]
      {
        assert At(a, p) == At(b, p);
      }
    }
  }

  // ----- the transaction

  /** The files with every write carried out. */
  function Written(files: map<Path, Content>, writes: seq<Write>): map<Path, Content> {
    if writes == [] then files
    else Written(files, writes[..|writes| - 1])[Target(writes[|writes| - 1].name) := writes[|writes| - 1].content]
  }

  lemma {:induction false} WrittenAt(files: map<Path, Content>, writes: seq<Write>, p: Path)
    requires DistinctNames(writes)
    ensures (forall i :: 0 <= i < |writes| ==> p != Target(writes[i].name)) ==>
            At(Written(files, writes), p) == At(files, p)
    ensures forall i :: 0 <= i < |writes| && p == Target(writes[i].name) ==>
            At(Written(files, writes), p) == Some(writes[i].content)
  {
    if writes == [] {
    } else {
      WrittenAt(files, writes[..|writes| - 1], p);
    }
  }

  function Names(writes: seq<Write>): set<string> {
    set w | w in writes :: w.name
  }

  lemma NamesSnoc(rest: seq<Write>, last: Write)
    ensures Names(rest + [last]) == Names(rest) + {last.name}
    ensures DistinctNames(rest + [last]) <==> DistinctNames(rest) && last.name !in Names(rest)
  {
    var writes := rest + [last];
    assert forall w :: w in writes <==> w in rest || w == last;
    if last.name in Names(rest) {
      var i :| 0 <= i < |rest| && rest[i].name == last.name;
      assert writes[i].name == writes[|rest|].name;
    } else {
      assert forall i :: 0 <= i < |rest| ==> rest[i] in rest;
      assert forall i :: 0 <= i < |rest| ==> rest[i].name in Names(rest);
    }
    assert forall i :: 0 <= i < |rest| ==> writes[i] == rest[i];
  }

  lemma {:induction false} NamesSize(writes: seq<Write>)
    ensures |Names(writes)| <= |writes|
    ensures |Names(writes)| == |writes| <==> DistinctNames(writes)
  {
    if writes == [] {
      assert Names(writes) == {};
    } else {
      var last, rest := writes[|writes| - 1], writes[..|writes| - 1];
      assert writes == rest + [last];
      NamesSize(rest);
      NamesSnoc(rest, last);
      if last.name in Names(rest) {
        assert Names(writes) == Names(rest);
      }
    }
  }

  /** `files` is `uncleaned` after some removals from the staging directories. */
  ghost predicate Swept(files: map<Path, Content>, uncleaned: map<Path, Content>, staged: seq<Staged>) {
    && (forall p :: p in files ==> p in uncleaned && files[p] == uncleaned[p])
    && (forall p :: p in uncleaned && !InSomeStage(p, staged) ==> p in files)
  }

  ghost predicate NoStagesLeft(files: map<Path, Content>, staged: seq<Staged>) {
    forall p :: p in files ==> !InSomeStage(p, staged)
  }

  lemma SweptAt(files: map<Path, Content>, uncleaned: map<Path, Content>, staged: seq<Staged>, p: Path)
    requires Swept(files, uncleaned, staged)
    requires !InSomeStage(p, staged)
    ensures At(files, p) == At(uncleaned, p)
  {
  }

  lemma NotOwned(p: Path, staged: seq<Staged>)
    requires !InSomeStage(p, staged)
    requires p.Target? ==> forall i :: 0 <= i < |staged| ==> staged[i].write.name != p.name
    ensures forall i :: 0 <= i < |staged| ==> p !in Owned(staged[i])
  {
    forall i | 0 <= i < |staged|
      ensures p !in Owned(staged[i])
    {
      assert !InStage(p, staged[i].stage);
    }
  }

  lemma SwappedAt(uncleaned: map<Path, Content>, before: map<Path, Content>, staged: seq<Staged>, writes: seq<Write>,
                  p: Path)
    requires |staged| == |writes| && DistinctNames(writes)
    requires forall i :: 0 <= i < |writes| ==> staged[i].write == writes[i]
    requires OthersKept(uncleaned, before, staged)
    requires SwappedUpTo(uncleaned, before, staged, |staged|)
    requires !InSomeStage(p, staged)
    ensures At(uncleaned, p) == At(Written(before, writes), p)
  {
    WrittenAt(before, writes, p);
    if i :| 0 <= i < |writes| && p == Target(writes[i].name) {
      assert Swapped(uncleaned, before, staged[i]);
    } else {
      NotOwned(p, staged);
    }
  }

  /** Every written target holds its new content and everything else is as before. */
  lemma SwappedMeansWritten(files: map<Path, Content>, uncleaned: map<Path, Content>, before: map<Path, Content>,
                            staged: seq<Staged>, writes: seq<Write>, firstStage: nat, nextStage: nat)
    requires |staged| == |writes| && DistinctNames(writes)
    requires forall i :: 0 <= i < |writes| ==> staged[i].write == writes[i]
    requires WellStaged(staged, before, firstStage, nextStage)
    requires OthersKept(uncleaned, before, staged)
    requires SwappedUpTo(uncleaned, before, staged, |staged|)
    requires Swept(files, uncleaned, staged)
    ensures TargetsKept(files, Written(before, writes))
    ensures NoStagesLeft(files, staged) ==> files == Written(before, writes)
  {
    forall name
      ensures At(files, Target(name)) == At(Written(before, writes), Target(name))
    {
      SweptAt(files, uncleaned, staged, Target(name));
      SwappedAt(uncleaned, before, staged, writes, Target(name));
    }
    if NoStagesLeft(files, staged) {
      forall p
        ensures At(files, p) == At(Written(before, writes), p)
      {
        if InSomeStage(p, staged) {
          WrittenAt(before, writes, p);
          assert p !in files && p !in before;
        } else {
          SweptAt(files, uncleaned, staged, p);
          SwappedAt(uncleaned, before, staged, writes, p);
        }
      }
      SameAt(files, Written(before, writes));
    }
  }

  /** Restoring every write restores every target. */
  lemma RestoredMeansKept(files: map<Path, Content>, before: map<Path, Content>, staged: seq<Staged>)
    requires OthersKept(files, before, staged)
    requires AllRestored(files, before, staged)
    ensures TargetsKept(files, before)
  {
    forall name
      ensures At(files, Target(name)) == At(before, Target(name))
    {
      var p := Target(name);
      if i :| 0 <= i < |staged| && staged[i].write.name == name {
        assert Restored(files, before, staged[i]);
      } else {
        assert forall i :: 0 <= i < |staged| ==> p !in Owned(staged[i]);
      }
    }
  }

  /** The original of `name` survives where it was, or in a backup of this transaction. */
  ghost predicate Survives(files: map<Path, Content>, before: map<Path, Content>, name: string, firstStage: nat) {
    Target(name) in before ==>
      || At(files, Target(name)) == At(before, Target(name))
      || exists stage :: stage >= firstStage && At(files, Backup(stage, name)) == At(before, Target(name))
  }

  lemma RecoverableMeansSurvives(files: map<Path, Content>, before: map<Path, Content>, staged: seq<Staged>,
                                 firstStage: nat, nextStage: nat)
    requires WellStaged(staged, before, firstStage, nextStage)
    requires OthersKept(files, before, staged)
    requires forall i :: 0 <= i < |staged| ==> Recoverable(files, before, staged[i])
    ensures forall name :: Survives(files, before, name, firstStage)
  {
    forall name
      ensures Survives(files, before, name, firstStage)
    {
      if i :| 0 <= i < |staged| && staged[i].write.name == name {
        assert Recoverable(files, before, staged[i]);
      } else {
        assert forall i :: 0 <= i < |staged| ==> Target(name) !in Owned(staged[i]);
        assert At(files, Target(name)) == At(before, Target(name));
      }
    }
  }

  /** The outcome is told by which steps had a failed operation: staging, swapping and cleaning
      stop at the first. */
  ghost predicate Explains(outcome: Outcome, before: Tally, after: Tally) {
    && (outcome.StagingFailed? <==> after.staging > before.staging)
    && (outcome.Installed? <==> after.staging == before.staging && after.swapping == before.swapping)
    && (outcome.RolledBack? <==> after.swapping > before.swapping && after.undoing == before.undoing)
    && (outcome.RollbackFailed? <==> after.undoing > before.undoing)
    && (!outcome.Refused? && !outcome.RollbackFailed? ==> (outcome.cleaned <==> after.cleaning == before.cleaning))
    && after.staging + after.swapping <= before.staging + before.swapping + 1
    && after.cleaning <= before.cleaning + 1
  }

  lemma SameStages(a: seq<Staged>, b: seq<Staged>, before: set<nat>, now: set<nat>)
    requires SameWrites(a, b) && OwnStages(b, before, now)
    ensures OwnStages(a, before, now)
  {
    forall n
      ensures n in StagesOf(a) <==> n in StagesOf(b)
    {
      if n in StagesOf(a) {
        var i :| 0 <= i < |a| && a[i].stage == n;
        assert b[i] in b;
      }
      if n in StagesOf(b) {
        var i :| 0 <= i < |b| && b[i].stage == n;
        assert a[i] in a;
      }
    }
  }

  /** The written names whose targets are not as before. */
  function Changed(files: map<Path, Content>, before: map<Path, Content>, writes: seq<Write>): set<string> {
    set name | name in Names(writes) && At(files, Target(name)) != At(before, Target(name))
  }

  lemma LostMeansChanged(files: map<Path, Content>, before: map<Path, Content>, staged: seq<Staged>,
                         writes: seq<Write>)
    requires |staged| == |writes|
    requires forall i :: 0 <= i < |writes| ==> staged[i].write == writes[i]
    ensures Changed(files, before, writes) == Lost(files, before, staged)
  {
    forall name
      ensures name in Changed(files, before, writes) <==> name in Lost(files, before, staged)
    {
      if name in Changed(files, before, writes) {
        var i :| 0 <= i < |writes| && writes[i].name == name;
        assert staged[i] in staged;
      }
      if name in Lost(files, before, staged) {
        var i :| 0 <= i < |staged| && staged[i].write.name == name;
        assert writes[i] in writes;
      }
    }
  }

  /** What each outcome leaves of the files. */
  ghost predicate Leaves(outcome: Outcome, before: Store, after: Store, writes: seq<Write>) {
    match outcome
    case Refused => after == before
    case StagingFailed(cleaned) =>
      TargetsKept(after.files, before.files) && (cleaned ==> after.files == before.files)
    case Installed(cleaned) =>
      && TargetsKept(after.files, Written(before.files, writes))
      && (cleaned ==> after.files == Written(before.files, writes))
    case RolledBack(cleaned) =>
      TargetsKept(after.files, before.files) && (cleaned ==> after.files == before.files)
    case RollbackFailed =>
      && (forall name :: Survives(after.files, before.files, name, before.nextStage))
      && (forall name :: name !in Names(writes) ==> At(after.files, Target(name)) == At(before.files, Target(name)))
      && |Changed(after.files, before.files, writes)| <= after.failed.undoing - before.failed.undoing
  }

  ghost predicate Grows(before: Tally, after: Tally) {
    && before.staging <= after.staging && before.swapping <= after.swapping
    && before.undoing <= after.undoing && before.cleaning <= after.cleaning
  }

  lemma FaultlessInstalls(outcome: Outcome, plan: Plan, before: Store, after: Store)
    requires !outcome.Refused? && Explains(outcome, before.failed, after.failed)
    requires Grows(before.failed, after.failed)
    requires AsPlanned(plan, before, after)
    requires forall i :: before.ops <= i < after.ops ==> plan(i).Works?
    ensures outcome == Installed(true)
  {
    NoFaults(plan, before.ops, after.ops);
  }

  /** Wherever operations fail: either all writes are installed and nothing else has changed, or
      every target is as it was, or (only when undoing itself failed) every original still
      exists at its target or in a backup that is kept.  Which of these it is, and whether the
      staging directories are gone, is told by the steps in which the plan made operations fail;
      a plan without faults installs everything. */
  method ApplyPlannedWrites(disk: Disk, writes: seq<Write>) returns (outcome: Outcome)
    requires disk.Valid()
    modifies disk
    ensures outcome.Refused? <==> !DistinctNames(writes)
    ensures Leaves(outcome, old(disk.Now()), disk.Now(), writes)
    ensures !outcome.Refused? ==> Explains(outcome, old(disk.failed), disk.failed)
    ensures !outcome.Refused? && !outcome.RollbackFailed? ==> (outcome.cleaned <==> disk.stages == old(disk.stages))
    ensures AsPlanned(disk.plan, old(disk.Now()), disk.Now())
    ensures DistinctNames(writes) && (forall i :: old(disk.ops) <= i < disk.ops ==> disk.plan(i).Works?)
            ==> outcome == Installed(true)
  {
    NamesSize(writes);
    if |Names(writes)| != |writes| {
      return Refused;
    }
    outcome := Commit(disk, writes);
    if forall i :: old(disk.ops) <= i < disk.ops ==> disk.plan(i).Works? {
      FaultlessInstalls(outcome, disk.plan, old(disk.Now()), disk.Now());
    }
  }

  method Commit(disk: Disk, writes: seq<Write>) returns (outcome: Outcome)
    requires disk.Valid() && DistinctNames(writes)
    modifies disk
    ensures !outcome.Refused?
    ensures Leaves(outcome, old(disk.Now()), disk.Now(), writes)
    ensures Explains(outcome, old(disk.failed), disk.failed) && Grows(old(disk.failed), disk.failed)
    ensures !outcome.RollbackFailed? ==> (outcome.cleaned <==> disk.stages == old(disk.stages))
    ensures AsPlanned(disk.plan, old(disk.Now()), disk.Now())
  {
    ghost var start := disk.Now();
    var staged, ok := StageAll(disk, writes);
    ghost var middle := disk.Now();
    if !ok {
      ok := Discard(disk, staged, start.files, start.stages, start.nextStage);
      AsPlannedTwice(disk.plan, start, middle, disk.Now());
      return StagingFailed(ok);
    }
    outcome := SwapOrAbandon(disk, staged, writes, start);
    AsPlannedTwice(disk.plan, start, middle, disk.Now());
  }

  /** Swaps the staged writes in, and undoes the swaps if one of them fails. */
  method SwapOrAbandon(disk: Disk, staged: seq<Staged>, writes: seq<Write>, ghost start: Store)
    returns (outcome: Outcome)
    requires DistinctNames(writes) && |staged| == |writes|
    requires forall i :: 0 <= i < |writes| ==> staged[i].write == writes[i]
    requires StagedIn(start, disk.Now(), staged) && SwappedUpTo(disk.files, start.files, staged, 0)
    requires disk.failed == start.failed
    modifies disk`files, disk`stages, disk`ops, disk`failed
    ensures outcome.Installed? || outcome.RolledBack? || outcome.RollbackFailed?
    ensures Leaves(outcome, start, disk.Now(), writes)
    ensures Explains(outcome, old(disk.failed), disk.failed) && Grows(old(disk.failed), disk.failed)
    ensures !outcome.RollbackFailed? ==> (outcome.cleaned <==> disk.stages == start.stages)
    ensures AsPlanned(disk.plan, old(disk.Now()), disk.Now())
  {
    ghost var before := disk.Now();
    var swapped, ok := SwapAll(disk, staged, start.files, start.nextStage);
    SameStages(swapped, staged, start.stages, disk.stages);
    ghost var middle := disk.Now();
    if ok {
      ok := Cleanup(disk, swapped, start.stages);
      AsPlannedTwice(disk.plan, before, middle, disk.Now());
      SwappedMeansWritten(disk.files, middle.files, start.files, swapped, writes, start.nextStage, disk.nextStage);
      return Installed(ok);
    }
    outcome := Abandon(disk, swapped, start.files, start.stages, start.nextStage);
    AsPlannedTwice(disk.plan, before, middle, disk.Now());
    if outcome.RollbackFailed? {
      UnwrittenKept(disk.files, start.files, swapped, writes);
      LostMeansChanged(disk.files, start.files, swapped, writes);
    }
  }

  lemma UnwrittenKept(files: map<Path, Content>, before: map<Path, Content>, staged: seq<Staged>, writes: seq<Write>)
    requires |staged| == |writes|
    requires forall i :: 0 <= i < |writes| ==> staged[i].write == writes[i]
    requires OthersKept(files, before, staged)
    ensures forall name :: name !in Names(writes) ==> At(files, Target(name)) == At(before, Target(name))
  {
    forall name | name !in Names(writes)
      ensures At(files, Target(name)) == At(before, Target(name))
    {
      assert forall i :: 0 <= i < |writes| ==> writes[i] in writes;
      NotOwned(Target(name), staged);
    }
  }

  /** Cleans up while no target has been changed. */
  method Discard(disk: Disk, staged: seq<Staged>, ghost before: map<Path, Content>, ghost stages: set<nat>,
                 ghost firstStage: nat)
    returns (ok: bool)
    requires WellStaged(staged, before, firstStage, disk.nextStage)
    requires OthersKept(disk.files, before, staged)
    requires TargetsKept(disk.files, before)
    requires OwnStages(staged, stages, disk.stages)
    modifies disk`files, disk`stages, disk`ops, disk`failed
    ensures TargetsKept(disk.files, before)
    ensures ok ==> disk.files == before
    ensures ok <==> disk.stages == stages
    ensures ToldBy(ok, old(disk.failed), disk.failed, Cleaning)
    ensures AsPlanned(disk.plan, old(disk.Now()), disk.Now())
  {
    ghost var uncleaned := disk.files;
    ok := Cleanup(disk, staged, stages);
    KeptWhenCleaned(disk.files, uncleaned, before, staged);
    if ok {
      CleanMeansUnchanged(disk.files, uncleaned, before, staged, firstStage, disk.nextStage);
    }
  }

  lemma KeptWhenCleaned(files: map<Path, Content>, uncleaned: map<Path, Content>, before: map<Path, Content>,
                        staged: seq<Staged>)
    requires TargetsKept(uncleaned, before)
    requires Swept(files, uncleaned, staged)
    ensures TargetsKept(files, before)
  {
    forall name
      ensures At(files, Target(name)) == At(before, Target(name))
    {
      assert At(uncleaned, Target(name)) == At(before, Target(name));
      assert !InSomeStage(Target(name), staged);
    }
  }

  /** Undoes the swaps, and cleans up only if that succeeded. */
  method Abandon(disk: Disk, staged: seq<Staged>, ghost before: map<Path, Content>, ghost stages: set<nat>,
                 ghost firstStage: nat)
    returns (outcome: Outcome)
    requires WellStaged(staged, before, firstStage, disk.nextStage)
    requires AllPlaced(disk.files, before, staged)
    requires OthersKept(disk.files, before, staged)
    requires OwnStages(staged, stages, disk.stages)
    modifies disk`files, disk`stages, disk`ops, disk`failed
    ensures outcome.RolledBack? || outcome.RollbackFailed?
    ensures outcome.RollbackFailed? ==> ToldBy(false, old(disk.failed), disk.failed, Undoing)
    ensures outcome.RolledBack? ==>
              && ToldBy(outcome.cleaned, old(disk.failed), disk.failed, Cleaning)
              && (outcome.cleaned <==> disk.stages == stages)
    ensures AsPlanned(disk.plan, old(disk.Now()), disk.Now())
    ensures outcome.RolledBack? ==>
              TargetsKept(disk.files, before) && (outcome.cleaned ==> disk.files == before)
    ensures outcome.RollbackFailed? ==>
              && OthersKept(disk.files, before, staged)
              && (forall name :: Survives(disk.files, before, name, firstStage))
              && |Lost(disk.files, before, staged)| <= disk.failed.undoing - old(disk.failed.undoing)
  {
    ghost var start := disk.Now();
    var ok := UndoAll(disk, staged, before, firstStage);
    ghost var middle := disk.Now();
    if !ok {
      RecoverableMeansSurvives(disk.files, before, staged, firstStage, disk.nextStage);
      return RollbackFailed;
    }
    RestoredMeansKept(disk.files, before, staged);
    ok := Discard(disk, staged, before, stages, firstStage);
    AsPlannedTwice(disk.plan, start, middle, disk.Now());
    return RolledBack(ok);
  }
}
