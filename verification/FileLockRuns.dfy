/** The lock-file protocol over whole runs. */
module FileLockRuns {
  import opened Basics
  import opened FileLock
  import opened FileLockInvariant
  import opened FileLockSafety

  // ---- facts of every run, with any number of processes and any failures ----

  lemma {:induction false} StepsKeepSound(ws: seq<World>, acts: seq<Action>, i: nat)
    requires Steps(ws, acts) && Sound(ws[0]) && i < |ws|
    ensures Sound(ws[i])
  {
    if i > 0 {
      StepsKeepSound(ws, acts, i - 1);
      StepKeepsSound(ws[i - 1], acts[i - 1]);
    }
  }

  lemma RunIsSound(ws: seq<World>, acts: seq<Action>, i: nat)
    requires Run(ws, acts) && i < |ws|
    ensures Sound(ws[i])
  {
    InitialIsSound(ws[0]);
    StepsKeepSound(ws, acts, i);
  }

  /** Whatever a reader finds at the lock path is a finished payload. */
  lemma LockPathIsAlwaysComplete(ws: seq<World>, acts: seq<Action>, i: nat)
    requires Run(ws, acts) && i < |ws| && LockPath in ws[i].dir
    ensures Look(ws[i], LockPath).Some? && Look(ws[i], LockPath).value.content.Whole?
  {
    RunIsSound(ws, acts, i);
  }

  /** No file is ever reclaimed twice, and once reclaimed it stays off the lock path. */
  lemma ReclaimedOnceAndForGood(ws: seq<World>, acts: seq<Action>, i: nat, j: nat)
    requires Run(ws, acts) && i <= j < |ws|
    ensures forall a, b :: 0 <= a < b < |ws[j].reclaimed| ==> ws[j].reclaimed[a] != ws[j].reclaimed[b]
    ensures ws[i].reclaimed <= ws[j].reclaimed
    ensures forall f :: f in ws[i].reclaimed && LockPath in ws[j].dir ==> ws[j].dir[LockPath] != f
  {
    RunIsSound(ws, acts, j);
    LogOnlyGrows(ws, acts, i, j);
    forall f | f in ws[i].reclaimed ensures f in ws[j].reclaimed {}
  }

  lemma {:induction false} LogOnlyGrows(ws: seq<World>, acts: seq<Action>, i: nat, j: nat)
    requires Run(ws, acts) && i <= j < |ws|
    ensures ws[i].reclaimed <= ws[j].reclaimed
  {
    if i < j {
      LogOnlyGrows(ws, acts, i, j - 1);
      StepLogs(ws[j - 1], acts[j - 1], ws[j]);
      LongerStill(ws[i].reclaimed, ws[j - 1].reclaimed, ws[j].reclaimed);
    }
  }

  lemma StepLogs(w: World, a: Action, w': World)
    requires CanTake(w, a) && w' == Take(w, a)
    ensures w.reclaimed <= w'.reclaimed
  {
  }

  lemma LongerStill(a: seq<nat>, b: seq<nat>, c: seq<nat>)
    requires a <= b <= c
    ensures a <= c
  {
  }

  /** A reclaim that returns true deletes the probed file and no other: one whose holder is
      dead or unnamed, which no live process holds and which nobody reclaimed before. */
  lemma ReclaimDeletesTheProbedFile(ws: seq<World>, acts: seq<Action>, i: nat, p: nat)
    requires Run(ws, acts) && i < |acts| && acts[i] == Do(p, DeleteAside(true))
    ensures
      var w, l := ws[i], ws[i].procs[p];
      && l.pc.at in w.dir && w.dir[l.pc.at] in w.files
      && var f := w.dir[l.pc.at];
      && ws[i + 1].reclaimed == w.reclaimed + [f] && f !in w.reclaimed
      && l.stale == Some(w.files[f].seen)
      && (forall g :: g in w.files && l.stale == Some(w.files[g].seen) ==> g == f)
      && w.files[f].seen.content.Whole?
      && (w.files[f].seen.content.pid == None || w.files[f].seen.content.pid.value in w.dead)
      && (forall q :: Owner(w, q) ==> w.procs[q].holds != Some(f))
  {
    RunIsSound(ws, acts, i);
    var w := ws[i];
    assert LocalOk(w, p, w.procs[p]);
    forall q | Owner(w, q) ensures w.procs[q].holds != Some(w.dir[w.procs[p].pc.at]) {
      assert LocalOk(w, q, w.procs[q]);
    }
  }

  // ---- mutual exclusion ----

  /** At most one live owner, and the lock path never names another file while it lives. */
  ghost predicate Protected(w: World) {
    && MutuallyExclusive(w)
    && forall p :: Owner(w, p) && LockPath in w.dir ==> w.procs[p].holds == Some(w.dir[LockPath])
  }

  ghost predicate UndisturbedBefore(ws: seq<World>, acts: seq<Action>, n: nat)
    requires Run(ws, acts) && n <= |acts|
  {
    forall i :: 0 <= i < n ==> Undisturbed(ws[i], acts[i])
  }

  lemma {:induction false} UndisturbedRunIsExclusive(ws: seq<World>, acts: seq<Action>, i: nat)
    requires Run(ws, acts) && i < |ws| && UndisturbedBefore(ws, acts, i)
    ensures Exclusive(ws[i])
  {
    if i > 0 {
      UndisturbedRunIsExclusive(ws, acts, i - 1);
      RunIsSound(ws, acts, i - 1);
      StepKeepsExclusive(ws[i - 1], acts[i - 1]);
    }
  }

  /** One step: the owner stays protected exactly when the step disturbs no quarantined file. */
  lemma ProtectedExactlyWhenUndisturbed(w: World, a: Action)
    requires Sound(w) && Exclusive(w) && CanTake(w, a)
    ensures Protected(Take(w, a)) <==> Undisturbed(w, a)
  {
    if Undisturbed(w, a) {
      StepKeepsExclusive(w, a);
    } else {
      var q :| Owner(w, q) && w.procs[q].holds != LinkedBy(w, a) && InQuarantine(w, w.procs[q].holds.value);
      var w' := Take(w, a);
      assert LocalOk(w, a.proc, w.procs[a.proc]) && LocalOk(w, q, w.procs[q]);
      assert Owner(w', q) && w'.procs[q].holds == w.procs[q].holds;
      assert Owner(w', q) && LockPath in w'.dir && w'.dir[LockPath] == LinkedBy(w, a).value;
    }
  }

  /** Mutual exclusion over whole runs, for any number of processes: the lock is protected
      throughout exactly when no file is linked onto the lock path while an owner's other
      file sits in a reclaimer's quarantine. */
  lemma {:induction false} MutualExclusion(ws: seq<World>, acts: seq<Action>)
    requires Run(ws, acts)
    ensures (forall i :: 0 <= i < |ws| ==> Protected(ws[i])) <==> UndisturbedBefore(ws, acts, |acts|)
  {
    if UndisturbedBefore(ws, acts, |acts|) {
      forall i | 0 <= i < |ws| ensures Protected(ws[i]) {
        UndisturbedRunIsExclusive(ws, acts, i);
      }
    } else {
      var i := FirstDisturbance(ws, acts, |acts|);
      UndisturbedRunIsExclusive(ws, acts, i);
      RunIsSound(ws, acts, i);
      ProtectedExactlyWhenUndisturbed(ws[i], acts[i]);
      assert !Protected(ws[i + 1]);
    }
  }

  lemma {:induction false} FirstDisturbance(ws: seq<World>, acts: seq<Action>, n: nat) returns (i: nat)
    requires Run(ws, acts) && n <= |acts| && !UndisturbedBefore(ws, acts, n)
    ensures i < n && UndisturbedBefore(ws, acts, i) && !Undisturbed(ws[i], acts[i])
  {
    if UndisturbedBefore(ws, acts, n - 1) {
      i := n - 1;
    } else {
      i := FirstDisturbance(ws, acts, n - 1);
    }
  }

  /** An owner that releases in an undisturbed run unlinks its own file or nothing. */
  lemma ReleaseUnlinksOnlyItsOwn(ws: seq<World>, acts: seq<Action>, i: nat, p: nat, ok: bool)
    requires Run(ws, acts) && i < |acts| && UndisturbedBefore(ws, acts, i)
    requires acts[i] == Do(p, UnlinkRelease(ok)) || acts[i] == Do(p, Abandon(ok))
    ensures Owner(ws[i], p) && !Owner(ws[i + 1], p)
    ensures LockPath in ws[i].dir ==> ws[i].procs[p].holds == Some(ws[i].dir[LockPath])
  {
    UndisturbedRunIsExclusive(ws, acts, i);
    RunIsSound(ws, acts, i);
    LastUnlinkKeepsExclusive(ws[i], p, acts[i].move);
  }

  // ---- two processes need no such hypothesis ----

  /** With two processes, an owner never gets past the recheck of a reclaim, and when its
      file is off the lock path the other process has it in custody. */
  ghost predicate Paired(w: World) {
    && |w.procs| == 2
    && forall p :: Owner(w, p) ==> PairedOwner(w, p)
  }

  lemma PairedIsUndisturbed(w: World, a: Action)
    requires Sound(w) && Exclusive(w) && Paired(w) && CanTake(w, a)
    ensures Undisturbed(w, a)
  {
    forall p | Owner(w, p) && LinkedBy(w, a).Some? ensures w.procs[p].holds == LinkedBy(w, a) {
      assert LocalOk(w, p, w.procs[p]);
    }
  }

  ghost predicate PairedOwner(w: World, p: int) {
    && 0 <= p < |w.procs| == 2
    && !w.procs[p].pc.Rechecked? && !HasAside(w.procs[p])
    && (LockPath !in w.dir ==> Custody(w.procs[1 - p]) && Kept(w, w.procs[1 - p]) == w.procs[p].holds)
  }

  /** A call leaves the other processes as they were. */
  lemma OthersStay(w: World, p: nat, m: Move, w': World)
    requires Enabled(w, p, m) && w' == Effect(w, p, m)
    ensures |w'.procs| == |w.procs| && w'.dead == w.dead
    ensures forall q :: 0 <= q < |w.procs| && q != p ==> w'.procs[q] == w.procs[q]
  {
  }

  /** A move that neither names nor unlinks anything but a private file. */
  predicate KeepsShared(m: Move) {
    && !m.Link? && !m.PutBack? && !m.MoveAside? && !m.Abandon? && !m.UnlinkRelease?
    && !m.DropAside? && !m.DeleteAside?
  }

  lemma SharedNamesStay(w: World, p: nat, m: Move, w': World)
    requires Enabled(w, p, m) && KeepsShared(m) && w' == Effect(w, p, m)
    ensures LockPath in w'.dir <==> LockPath in w.dir
    ensures forall path: Path :: path.Aside? && path in w.dir ==> path in w'.dir && w'.dir[path] == w.dir[path]
  {
  }

  /** Where the process stands after such a move, and what it owns. */
  lemma StandsAfter(w: World, p: nat, m: Move, w': World)
    requires Enabled(w, p, m) && KeepsShared(m) && w' == Effect(w, p, m)
    ensures p < |w'.procs| && (w'.procs[p].pc.Rechecked? ==> m.Recheck?)
    ensures HasAside(w'.procs[p]) ==> m.Verify?
    ensures w'.procs[p].holds.Some? ==> w'.procs[p].holds == w.procs[p].holds
  {
  }

  lemma LastUnlinkDisowns(w: World, p: nat, m: Move, w': World)
    requires Enabled(w, p, m) && (m.Abandon? || m.UnlinkRelease?) && w' == Effect(w, p, m)
    ensures !Owner(w', p)
  {
  }

  /** An owner that is about to recheck finds its own file, which is not stale. */
  lemma OwnRecheckKeepsPaired(w: World, p: nat, m: Move, w': World)
    requires Sound(w) && Exclusive(w) && Paired(w) && Enabled(w, p, m) && m.Recheck? && w' == Effect(w, p, m)
    requires Owner(w', p)
    ensures PairedOwner(w', p)
  {
    assert Owner(w, p) && PairedOwner(w, p) && Secure(w, p) && LocalOk(w, p, w.procs[p]);
    assert Look(w, LockPath) != w.procs[p].stale;
  }

  lemma OwnLinkKeepsPaired(w: World, p: nat, m: Move, w': World)
    requires Sound(w) && Paired(w) && Enabled(w, p, m) && m.Link? && w' == Effect(w, p, m)
    requires Owner(w', p)
    ensures PairedOwner(w', p)
  {
    assert LocalOk(w, p, w.procs[p]);
  }

  lemma OwnQuietStepKeepsPaired(w: World, p: nat, m: Move, w': World)
    requires Sound(w) && Paired(w) && Enabled(w, p, m) && KeepsShared(m) && !m.Recheck? && w' == Effect(w, p, m)
    requires Owner(w', p)
    ensures PairedOwner(w', p)
  {
    assert Owner(w, p) && PairedOwner(w, p) && LocalOk(w, 1 - p, w.procs[1 - p]);
    OthersStay(w, p, m, w');
    SharedNamesStay(w, p, m, w');
    StandsAfter(w, p, m, w');
    StillPaired(w, p, w');
  }

  /** The names a paired owner depends on are still there. */
  lemma StillPaired(w: World, p: int, w': World)
    requires Paired(w) && Owner(w, p) && |w'.procs| == 2
    requires w'.procs[1 - p] == w.procs[1 - p] && w'.procs[p].holds == w.procs[p].holds
    requires !w'.procs[p].pc.Rechecked? && !HasAside(w'.procs[p])
    requires LockPath in w'.dir <==> LockPath in w.dir
    requires forall path: Path :: path.Aside? && path in w.dir ==> path in w'.dir && w'.dir[path] == w.dir[path]
    requires Custody(w.procs[1 - p]) ==> w.procs[1 - p].pc.at.Aside?
    ensures PairedOwner(w', p)
  {
    assert PairedOwner(w, p);
  }

  lemma OwnStepKeepsPaired(w: World, p: nat, m: Move, w': World)
    requires Sound(w) && Exclusive(w) && Paired(w) && Enabled(w, p, m) && w' == Effect(w, p, m)
    ensures Owner(w', p) ==> PairedOwner(w', p)
  {
    if Owner(w', p) {
      if m.Recheck? {
        OwnRecheckKeepsPaired(w, p, m, w');
      } else if m.Link? {
        OwnLinkKeepsPaired(w, p, m, w');
      } else if KeepsShared(m) {
        OwnQuietStepKeepsPaired(w, p, m, w');
      } else {
        assert LocalOk(w, p, w.procs[p]) && (Owner(w, p) ==> PairedOwner(w, p));
        LastUnlinkDisowns(w, p, m, w');
      }
    }
  }

  /** The file of a live owner matches no stale probe. */
  lemma OwnersFileIsNotTheStaleOne(w: World, p: int, l: Local)
    requires Sound(w) && Exclusive(w) && Owner(w, p) && (l.stale.Some? ==> Stale(w, l.stale.value))
    requires Kept(w, l) == w.procs[p].holds
    ensures Custody(l) && Look(w, l.pc.at) != l.stale
  {
    assert Secure(w, p) && LocalOk(w, p, w.procs[p]);
  }

  /** With the owner's file in custody, only the reclaimer's verdict or put-back can come. */
  lemma CustodianKeepsPaired(w: World, p: int, m: Move, w': World)
    requires Sound(w) && Exclusive(w) && Paired(w) && Owner(w, p) && Enabled(w, 1 - p, m) && w' == Effect(w, 1 - p, m)
    requires m != PutBack(false) && LockPath !in w.dir
    ensures PairedOwner(w', p)
  {
    assert PairedOwner(w, p) && LocalOk(w, 1 - p, w.procs[1 - p]);
    OwnersFileIsNotTheStaleOne(w, p, w.procs[1 - p]);
    OthersStay(w, 1 - p, m, w');
    assert m.Verify? || m.PutBack?;
  }

  lemma OtherMoveAsideKeepsPaired(w: World, p: int, m: Move, w': World)
    requires Sound(w) && Exclusive(w) && Paired(w) && Owner(w, p) && Enabled(w, 1 - p, m) && w' == Effect(w, 1 - p, m)
    requires m.MoveAside? && LockPath in w.dir
    ensures PairedOwner(w', p)
  {
    assert PairedOwner(w, p) && Secure(w, p);
  }

  lemma LockPathStays(w: World, p: nat, m: Move, w': World)
    requires Enabled(w, p, m) && w' == Effect(w, p, m)
    requires !m.MoveAside? && !m.Abandon? && !m.UnlinkRelease? && LockPath in w.dir
    requires HasAside(w.procs[p]) ==> w.procs[p].pc.at.Aside?
    ensures LockPath in w'.dir
  {
  }

  lemma OtherStepKeepsPaired(w: World, p: int, m: Move, w': World)
    requires Sound(w) && Exclusive(w) && Paired(w) && Owner(w, p) && Enabled(w, 1 - p, m) && w' == Effect(w, 1 - p, m)
    requires m != PutBack(false)
    ensures PairedOwner(w', p)
  {
    if LockPath !in w.dir {
      CustodianKeepsPaired(w, p, m, w');
    } else if m.MoveAside? {
      OtherMoveAsideKeepsPaired(w, p, m, w');
    } else {
      assert LocalOk(w, 1 - p, w.procs[1 - p]) && !Owner(w, 1 - p);
      LockPathStays(w, 1 - p, m, w');
      OthersStay(w, 1 - p, m, w');
      assert PairedOwner(w, p);
    }
  }

  lemma BothPaired(w: World, p: nat)
    requires |w.procs| == 2 && p < 2
    requires Owner(w, p) ==> PairedOwner(w, p)
    requires Owner(w, 1 - p) ==> PairedOwner(w, 1 - p)
    ensures Paired(w)
  {
  }

  lemma DeathKeepsPaired(w: World, pid: nat)
    requires Paired(w)
    ensures Paired(Take(w, Die(pid)))
  {
    var w' := Take(w, Die(pid));
    forall p | Owner(w', p) ensures PairedOwner(w', p) {
      assert Owner(w, p) && PairedOwner(w, p);
    }
  }

  lemma CallKeepsPaired(w: World, p: nat, m: Move, w': World)
    requires Sound(w) && Exclusive(w) && Paired(w) && Enabled(w, p, m) && w' == Effect(w, p, m)
    requires m != PutBack(false)
    ensures Paired(w')
  {
    OthersStay(w, p, m, w');
    OwnStepKeepsPaired(w, p, m, w');
    assert Owner(w', 1 - p) ==> Owner(w, 1 - p);
    if Owner(w', 1 - p) { OtherStepKeepsPaired(w, 1 - p, m, w'); }
    BothPaired(w', p);
  }

  lemma StepKeepsPaired(w: World, a: Action)
    requires Sound(w) && Exclusive(w) && Paired(w) && CanTake(w, a)
    requires a.Do? ==> a.move != PutBack(false)
    ensures Paired(Take(w, a))
  {
    match a
    case Die(pid) => DeathKeepsPaired(w, pid);
    case Do(p, m) => CallKeepsPaired(w, p, m, Take(w, a));
  }

  lemma {:induction false} TwoProcessRunIsPaired(ws: seq<World>, acts: seq<Action>, i: nat)
    requires Run(ws, acts) && i < |ws| && |ws[0].procs| == 2 && PutBackNeverFails(acts)
    ensures Paired(ws[i]) && UndisturbedBefore(ws, acts, i)
  {
    if i > 0 {
      TwoProcessRunIsPaired(ws, acts, i - 1);
      UndisturbedRunIsExclusive(ws, acts, i - 1);
      RunIsSound(ws, acts, i - 1);
      PairedIsUndisturbed(ws[i - 1], acts[i - 1]);
      StepKeepsPaired(ws[i - 1], acts[i - 1]);
    }
  }

  /** The put-back link fails only because the path is taken. */
  predicate PutBackNeverFails(acts: seq<Action>) {
    forall i :: 0 <= i < |acts| && acts[i].Do? ==> acts[i].move != PutBack(false)
  }

  /** Between two processes the lock is protected in every reachable world, whatever dies
      and whatever else fails. */
  lemma TwoProcessMutualExclusion(ws: seq<World>, acts: seq<Action>, i: nat)
    requires Run(ws, acts) && i < |ws| && |ws[0].procs| == 2 && PutBackNeverFails(acts)
    ensures Protected(ws[i])
  {
    TwoProcessRunIsPaired(ws, acts, i);
    UndisturbedRunIsExclusive(ws, acts, i);
  }

  // ---- handles ----

  /** An acquire that links its file owns it before it has the handle; between calls a process has both or none. */
  ghost predicate HandleFits(l: Local) {
    match l.pc
    case Created(_) => l.holds.None? && l.handle.None?
    case Filled(_) => l.holds.None? && l.handle.None?
    case Linked(_, won) => l.handle.None? && (won <==> l.holds.Some?)
    case ReadingBack => l.holds.Some? && l.handle.None?
    case Abandoning => l.holds.Some? && l.handle.None?
    case _ => l.holds.Some? <==> l.handle.Some?
  }

  ghost predicate HandlesFit(w: World) {
    forall p | 0 <= p < |w.procs| :: HandleFits(w.procs[p])
  }

  predicate IsAcquiring(m: Move) {
    m.Create? || m.Fill? || m.FailFill? || m.Link? || m.DropPrivate? || m.ReadBack? || m.Abandon?
  }

  lemma AcquiringHandleFits(w: World, p: nat, m: Move)
    requires Enabled(w, p, m) && HandleFits(w.procs[p]) && IsAcquiring(m)
    ensures |Effect(w, p, m).procs| == |w.procs| && HandleFits(Effect(w, p, m).procs[p])
  {
  }

  lemma OtherHandleFits(w: World, p: nat, m: Move)
    requires Enabled(w, p, m) && HandleFits(w.procs[p]) && !IsAcquiring(m)
    ensures |Effect(w, p, m).procs| == |w.procs| && HandleFits(Effect(w, p, m).procs[p])
  {
  }

  lemma StepKeepsHandles(w: World, a: Action, w': World)
    requires HandlesFit(w) && CanTake(w, a) && w' == Take(w, a)
    ensures HandlesFit(w')
  {
    if a.Do? {
      if IsAcquiring(a.move) {
        AcquiringHandleFits(w, a.proc, a.move);
      } else {
        OtherHandleFits(w, a.proc, a.move);
      }
      OthersStay(w, a.proc, a.move, w');
    }
  }

  lemma {:induction false} StepsKeepHandles(ws: seq<World>, acts: seq<Action>, i: nat)
    requires Steps(ws, acts) && HandlesFit(ws[0]) && i <= |acts|
    ensures HandlesFit(ws[i])
  {
    if i > 0 {
      StepsKeepHandles(ws, acts, i - 1);
      StepKeepsHandles(ws[i - 1], acts[i - 1], ws[i]);
    }
  }

  /** Over any run, a process between calls has a handle exactly while it owns a lock: an acquire that cannot
      read its file back gives it up. */
  lemma HandleExactlyWhileOwning(ws: seq<World>, acts: seq<Action>, i: nat, p: nat)
    requires Run(ws, acts) && i <= |acts| && p < |ws[i].procs| && ws[i].procs[p].pc.Idle?
    ensures ws[i].procs[p].holds.Some? <==> ws[i].procs[p].handle.Some?
  {
    StepsKeepHandles(ws, acts, i);
    assert HandleFits(ws[i].procs[p]);
  }
}
