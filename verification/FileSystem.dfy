/** A file system of regular files whose operations fail where a plan says.

    Staging directories are numbered; a fresh one is empty.  `Next` is the file that will
    replace a target and `Backup` the place its original is moved to meanwhile.  Which step of
    a commit an operation belongs to can be read off its paths, so failures are tallied by step.
 */
module FileSystem {
  import opened Basics

  type Content = string

  datatype Path =
    | Target(name: string)
    | Next(stage: nat, name: string)
    | Backup(stage: nat, name: string)

  predicate InStage(p: Path, stage: nat) {
    !p.Target? && p.stage == stage
  }

  function At(files: map<Path, Content>, p: Path): Option<Content> {
    if p in files then Some(files[p]) else None
  }

  function Moved(files: map<Path, Content>, from: Path, to: Path): map<Path, Content>
    requires from in files
  {
    (files - {from})[to := files[from]]
  }

  // ----- failures

  /** What becomes of one operation.  A failed creation may leave a part of the file, and a
      failed removal of a directory any of its files. */
  datatype Fault = Works | Fails(part: Option<nat>, kept: set<Path>)

  /** The fate of every operation, by its number. */
  type Plan = nat -> Fault

  datatype Phase = Staging | Swapping | Undoing | Cleaning

  /** How many operations of each step have failed. */
  datatype Tally = Tally(staging: nat, swapping: nat, undoing: nat, cleaning: nat)

  function Counted(t: Tally, phase: Phase): Tally {
    match phase
    case Staging => t.(staging := t.staging + 1)
    case Swapping => t.(swapping := t.swapping + 1)
    case Undoing => t.(undoing := t.undoing + 1)
    case Cleaning => t.(cleaning := t.cleaning + 1)
  }

  function Sum(t: Tally): nat {
    t.staging + t.swapping + t.undoing + t.cleaning
  }

  datatype Store = Store(files: map<Path, Content>, stages: set<nat>, nextStage: nat, ops: nat, failed: Tally)

  /** The faults the plan holds for the operations from number `from` up to `to`. */
  function Faults(plan: Plan, from: nat, to: nat): nat {
    if to <= from then 0 else Faults(plan, from, to - 1) + (if plan(to - 1).Works? then 0 else 1)
  }

  /** From `a` to `b` exactly the operations that the plan dooms have failed. */
  ghost predicate AsPlanned(plan: Plan, a: Store, b: Store) {
    a.ops <= b.ops && Sum(b.failed) == Sum(a.failed) + Faults(plan, a.ops, b.ops)
  }

  lemma {:induction false} FaultsSplit(plan: Plan, a: nat, b: nat, c: nat)
    requires a <= b <= c
    ensures Faults(plan, a, c) == Faults(plan, a, b) + Faults(plan, b, c)
  {
    if b == c {
    } else {
      FaultsSplit(plan, a, b, c - 1);
    }
  }

  lemma AsPlannedTwice(plan: Plan, a: Store, b: Store, c: Store)
    requires AsPlanned(plan, a, b) && AsPlanned(plan, b, c)
    ensures AsPlanned(plan, a, c)
  {
    FaultsSplit(plan, a.ops, b.ops, c.ops);
  }

  /** Faultless stretches of the plan. */
  lemma {:induction false} NoFaults(plan: Plan, from: nat, to: nat)
    ensures Faults(plan, from, to) == 0 <==> forall i :: from <= i < to ==> plan(i).Works?
  {
    if to <= from {
    } else {
      NoFaults(plan, from, to - 1);
    }
  }

  // ----- operations

  /** The store after one more operation, counted if it failed. */
  function Ticked(s: Store, phase: Phase, ok: bool): Store {
    s.(ops := s.ops + 1, failed := if ok then s.failed else Counted(s.failed, phase))
  }

  /** The check that a target may be replaced. */
  function Inspecting(plan: Plan, s: Store): (Store, bool) {
    var ok := plan(s.ops).Works?;
    (Ticked(s, Staging, ok), ok)
  }

  function MakingStage(plan: Plan, s: Store): (Store, bool) {
    var ok := plan(s.ops).Works?;
    (Ticked(if ok then s.(stages := s.stages + {s.nextStage}, nextStage := s.nextStage + 1) else s, Staging, ok), ok)
  }

  /** Creates a new file. */
  function Creating(plan: Plan, s: Store, p: Path, content: Content): (Store, bool) {
    var fault := plan(s.ops);
    if p in s.files then (Ticked(s, Staging, false), false)
    else if fault.Works? then (Ticked(s.(files := s.files[p := content]), Staging, true), true)
    else if fault.part.Some? && fault.part.value <= |content| then
      (Ticked(s.(files := s.files[p := content[..fault.part.value]]), Staging, false), false)
    else (Ticked(s, Staging, false), false)
  }

  /** Only undoing moves a file out of its backup. */
  function RenamePhase(from: Path): Phase {
    if from.Backup? then Undoing else Swapping
  }

  /** Moves a file and replaces what was there. */
  function Renaming(plan: Plan, s: Store, from: Path, to: Path): (Store, bool) {
    var ok := plan(s.ops).Works? && from in s.files;
    (Ticked(if ok then s.(files := Moved(s.files, from, to)) else s, RenamePhase(from), ok), ok)
  }

  function Unlinking(plan: Plan, s: Store, p: Path): (Store, bool) {
    var ok := plan(s.ops).Works? && p in s.files;
    (Ticked(if ok then s.(files := s.files - {p}) else s, Undoing, ok), ok)
  }

  /** Removes a staging directory with what is in it. */
  function RemovingStage(plan: Plan, s: Store, stage: nat): (Store, bool) {
    var doomed := set p | p in s.files && InStage(p, stage);
    var fault := plan(s.ops);
    if fault.Works? then (Ticked(s.(files := s.files - doomed, stages := s.stages - {stage}), Cleaning, true), true)
    else (Ticked(s.(files := s.files - (doomed - fault.kept)), Cleaning, false), false)
  }

  class Disk {
    const plan: Plan
    var files: map<Path, Content>
    var stages: set<nat>
    var nextStage: nat
    var ops: nat
    var failed: Tally

    function Now(): Store
      reads this
    {
      Store(files, stages, nextStage, ops, failed)
    }

    /** Directories not handed out yet do not exist and hold nothing. */
    ghost predicate Valid()
      reads this
    {
      && (forall p :: p in files && !p.Target? ==> p.stage < nextStage)
      && (forall n :: n in stages ==> n < nextStage)
    }

    constructor (plan: Plan, files: map<Path, Content>, stages: set<nat>, nextStage: nat)
      ensures this.plan == plan && Now() == Store(files, stages, nextStage, 0, Tally(0, 0, 0, 0))
    {
      this.plan, this.files, this.stages, this.nextStage := plan, files, stages, nextStage;
      ops, failed := 0, Tally(0, 0, 0, 0);
    }

    method Inspect() returns (ok: bool)
      modifies this`ops, this`failed
      ensures (Now(), ok) == Inspecting(plan, old(Now()))
      ensures AsPlanned(plan, old(Now()), Now())
    {
      var (s, works) := Inspecting(plan, Now());
      OneStep(plan, ops);
      ops, failed := s.ops, s.failed;
      return works;
    }

    method MakeStage() returns (stage: nat, ok: bool)
      modifies this`stages, this`nextStage, this`ops, this`failed
      ensures (Now(), ok) == MakingStage(plan, old(Now()))
      ensures stage == old(nextStage)
      ensures AsPlanned(plan, old(Now()), Now())
    {
      stage := nextStage;
      var (s, works) := MakingStage(plan, Now());
      OneStep(plan, ops);
      stages, nextStage, ops, failed := s.stages, s.nextStage, s.ops, s.failed;
      ok := works;
    }

    method Create(p: Path, content: Content) returns (ok: bool)
      modifies this`files, this`ops, this`failed
      ensures (Now(), ok) == Creating(plan, old(Now()), p, content)
      ensures p !in old(files) ==> AsPlanned(plan, old(Now()), Now())
    {
      var (s, works) := Creating(plan, Now(), p, content);
      OneStep(plan, ops);
      files, ops, failed := s.files, s.ops, s.failed;
      return works;
    }

    method Rename(from: Path, to: Path) returns (ok: bool)
      modifies this`files, this`ops, this`failed
      ensures (Now(), ok) == Renaming(plan, old(Now()), from, to)
      ensures from in old(files) ==> AsPlanned(plan, old(Now()), Now())
    {
      var (s, works) := Renaming(plan, Now(), from, to);
      OneStep(plan, ops);
      files, ops, failed := s.files, s.ops, s.failed;
      return works;
    }

    method Unlink(p: Path) returns (ok: bool)
      modifies this`files, this`ops, this`failed
      ensures (Now(), ok) == Unlinking(plan, old(Now()), p)
      ensures p in old(files) ==> AsPlanned(plan, old(Now()), Now())
    {
      var (s, works) := Unlinking(plan, Now(), p);
      OneStep(plan, ops);
      files, ops, failed := s.files, s.ops, s.failed;
      return works;
    }

    method RemoveStage(stage: nat) returns (ok: bool)
      modifies this`files, this`stages, this`ops, this`failed
      ensures (Now(), ok) == RemovingStage(plan, old(Now()), stage)
      ensures forall p :: p in files ==> p in old(files) && files[p] == old(files)[p]
      ensures forall p :: p in old(files) && !InStage(p, stage) ==> p in files
      ensures ok ==> forall p :: p in files ==> !InStage(p, stage)
      ensures AsPlanned(plan, old(Now()), Now())
    {
      var (s, works) := RemovingStage(plan, Now(), stage);
      OneStep(plan, ops);
      files, stages, ops, failed := s.files, s.stages, s.ops, s.failed;
      return works;
    }
  }

  lemma OneStep(plan: Plan, n: nat)
    ensures Faults(plan, n, n + 1) == if plan(n).Works? then 0 else 1
  {
    assert Faults(plan, n, n) == 0;
  }
}
