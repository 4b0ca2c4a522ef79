/** Safety of the lock-file protocol over whole runs: complete payloads, one successful
    reclaim per stale file, and mutual exclusion. */
module FileLockSafety {
  import opened Basics
  import opened FileLock
  import opened FileLockInvariant

  /** A live process between its successful link and its own last unlink. */
  predicate Owner(w: World, p: int) {
    0 <= p < |w.procs| && p !in w.dead && w.procs[p].holds.Some?
  }

  ghost predicate MutuallyExclusive(w: World) {
    forall p, q :: Owner(w, p) && Owner(w, q) ==> p == q
  }

  /** The file that action `a` links onto the lock path, if it links one. */
  function LinkedBy(w: World, a: Action): Option<nat>
    requires CanTake(w, a)
  {
    if a.Die? || LockPath in w.dir then None
    else if a.move == Link(true) then Some(w.procs[a.proc].pc.file)
    else if a.move == PutBack(true) && w.procs[a.proc].pc.at in w.dir then Some(w.dir[w.procs[a.proc].pc.at])
    else None
  }

  ghost predicate InQuarantine(w: World, f: nat) {
    exists path :: path in w.dir && path.Aside? && w.dir[path] == f
  }

  /** No file is linked onto the lock path while another file, an owner's, sits in quarantine. */
  ghost predicate Undisturbed(w: World, a: Action)
    requires CanTake(w, a)
  {
    LinkedBy(w, a).Some? ==>
      forall p :: Owner(w, p) && w.procs[p].holds != LinkedBy(w, a) ==> !InQuarantine(w, w.procs[p].holds.value)
  }

  /** The file is moved aside and no reclaimer is about to drop that name. */
  ghost predicate SafelyAside(w: World, f: nat) {
    exists path :: path in w.dir && path.Aside? && w.dir[path] == f && !BeingDropped(w, path)
  }

  ghost predicate BeingDropped(w: World, path: Path) {
    exists q :: 0 <= q < |w.procs| && w.procs[q].pc == DroppingAside(path)
  }

  /** An owner's file is on the lock path or safely aside, and its handle describes it. */
  ghost predicate Secure(w: World, p: int)
    requires Owner(w, p)
  {
    var l := w.procs[p];
    && l.holds.value in w.files
    && (if LockPath in w.dir then w.dir[LockPath] == l.holds.value else SafelyAside(w, l.holds.value))
    && (l.handle.Some? ==> l.handle.value == w.files[l.holds.value].seen)
  }

  ghost predicate Exclusive(w: World) {
    && MutuallyExclusive(w)
    && forall p :: Owner(w, p) ==> Secure(w, p)
  }

  ghost predicate StillSafe(w: World, w': World, f: nat) {
    forall path :: path in w.dir && path.Aside? && w.dir[path] == f && !BeingDropped(w, path) ==>
      path in w'.dir && w'.dir[path] == f && !BeingDropped(w', path)
  }

  /** A step that leaves the lock path alone and disturbs no owner's safe place. */
  lemma QuietStepKeepsExclusive(w: World, w': World)
    requires Exclusive(w) && w.dead <= w'.dead && |w.procs| == |w'.procs|
    requires LockPath in w.dir <==> LockPath in w'.dir
    requires LockPath in w.dir ==> w.dir[LockPath] == w'.dir[LockPath]
    requires forall p :: Owner(w', p) ==>
      var l, f := w'.procs[p], w'.procs[p].holds.value;
      && Owner(w, p) && w.procs[p].holds == l.holds
      && f in w.files && f in w'.files && w.files[f] == w'.files[f]
      && (l.handle.Some? ==> l.handle.value == w.files[f].seen)
      && (LockPath !in w.dir ==> StillSafe(w, w', f))
    ensures Exclusive(w')
  {
    forall p | Owner(w', p) ensures Secure(w', p) {
      assert Owner(w, p);
    }
  }

  lemma DeathKeepsExclusive(w: World, pid: nat)
    requires Exclusive(w)
    ensures Exclusive(w.(dead := w.dead + {pid}))
  {
    var w' := w.(dead := w.dead + {pid});
    forall p, path | Owner(w', p) && path in w.dir && !BeingDropped(w, path) ensures !BeingDropped(w', path) {}
    assert forall p :: Owner(w', p) ==> Owner(w, p);
    QuietStepKeepsExclusive(w, w');
  }

  lemma PutKeepsExclusive(w: World, p: nat, l: Local)
    requires Exclusive(w) && p < |w.procs|
    requires l.holds.None? || l.holds == w.procs[p].holds
    requires l.handle.Some? && Owner(w, p) ==> l.handle.value == w.files[w.procs[p].holds.value].seen
    requires l.pc.DroppingAside? ==> LockPath in w.dir
    ensures Exclusive(Put(w, p, l))
  {
    var w' := Put(w, p, l);
    forall q | Owner(w', q) ensures Owner(w, q) && w.procs[q].holds == w'.procs[q].holds && Secure(w, q) {
      assert Owner(w, q);
    }
    if LockPath !in w.dir {
      forall path | !BeingDropped(w, path) ensures !BeingDropped(w', path) {}
    }
    QuietStepKeepsExclusive(w, w');
  }

  /** Unlinking any name but the lock path and a safe one. */
  lemma UnlinkKeepsExclusive(w: World, path: Path)
    requires Exclusive(w) && !path.LockPath?
    requires path.Aside? && path in w.dir ==>
      BeingDropped(w, path) || forall p :: Owner(w, p) ==> w.procs[p].holds != Some(w.dir[path])
    ensures Exclusive(Unlink(w, path))
  {
    var w' := Unlink(w, path);
    forall q | Owner(w', q) ensures Owner(w, q) && Secure(w, q) {
      assert Owner(w, q);
    }
    forall at | !BeingDropped(w, at) ensures !BeingDropped(w', at) {}
    QuietStepKeepsExclusive(w, w');
  }

  lemma AllocateKeepsExclusive(w: World, p: nat)
    requires Sound(w) && Exclusive(w)
    ensures Exclusive(Allocate(w, p))
  {
    var w' := Allocate(w, p);
    forall q | Owner(w', q) ensures Owner(w, q) && Secure(w, q) {
      assert Owner(w, q);
    }
    forall at | !BeingDropped(w, at) ensures !BeingDropped(w', at) {}
    QuietStepKeepsExclusive(w, w');
  }

  lemma FillKeepsExclusive(w: World, p: nat, seen: Snapshot)
    requires Sound(w) && Exclusive(w) && p < |w.procs| && w.procs[p].pc.Created? && w.procs[p].pc.file in w.files
    ensures Exclusive(FillFile(w, p, seen))
  {
    var w' := FillFile(w, p, seen);
    assert LocalOk(w, p, w.procs[p]);
    forall q | Owner(w', q) ensures Owner(w, q) && Secure(w, q) && w.procs[q].holds != Some(w.procs[p].pc.file) {
      assert Owner(w, q) && LocalOk(w, q, w.procs[q]);
    }
    forall at | !BeingDropped(w, at) ensures !BeingDropped(w', at) {}
    QuietStepKeepsExclusive(w, w');
  }

  /** With the path empty and no disturbance, no owner can be waiting for its own file. */
  lemma LinkKeepsExclusive(w: World, p: nat, m: Move)
    requires Sound(w) && Exclusive(w) && Enabled(w, p, m) && m == Link(true) && LockPath !in w.dir
    requires Undisturbed(w, Do(p, m))
    ensures Exclusive(Effect(w, p, m))
  {
    var w', f := Effect(w, p, m), w.procs[p].pc.file;
    assert LocalOk(w, p, w.procs[p]) && Unpublished(w, f);
    OwnersAreQuarantined(w);
    forall q | Owner(w', q) ensures q == p {}
  }

  lemma OwnersAreQuarantined(w: World)
    requires Exclusive(w) && LockPath !in w.dir
    ensures forall q :: Owner(w, q) ==> InQuarantine(w, w.procs[q].holds.value)
  {
    forall q | Owner(w, q) ensures InQuarantine(w, w.procs[q].holds.value) {
      assert Secure(w, q);
    }
  }

  lemma PutBackKeepsExclusive(w: World, p: nat, m: Move)
    requires Sound(w) && Exclusive(w) && Enabled(w, p, m) && m.PutBack?
    requires Undisturbed(w, Do(p, m))
    ensures Exclusive(Effect(w, p, m))
  {
    var w' := Effect(w, p, m);
    if LinkedBy(w, Do(p, m)).Some? {
      forall q | Owner(w', q) ensures Owner(w, q) && Secure(w', q) {
        assert Owner(w, q) && Secure(w, q) && InQuarantine(w, w.procs[q].holds.value);
      }
    } else {
      HandleIsOwn(w, p);
      PutKeepsExclusive(w, p, w'.procs[p]);
    }
  }

  lemma HandleIsOwn(w: World, p: nat)
    requires Exclusive(w) && p < |w.procs|
    ensures Owner(w, p) && w.procs[p].handle.Some? ==>
      w.procs[p].holds.value in w.files && w.procs[p].handle.value == w.files[w.procs[p].holds.value].seen
  {
    assert Owner(w, p) ==> Secure(w, p);
  }

  /** Moving the owner's file aside leaves it safely aside. */
  lemma MoveAsideKeepsExclusive(w: World, p: nat, m: Move)
    requires Sound(w) && Exclusive(w) && Enabled(w, p, m) && m == MoveAside(true) && LockPath in w.dir
    ensures Exclusive(Effect(w, p, m))
  {
    var w', at := Effect(w, p, m), Aside(p, w.next);
    assert LocalOk(w, p, w.procs[p]);
    forall q | Owner(w', q) ensures Owner(w, q) && Secure(w', q) {
      assert Owner(w, q) && Secure(w, q);
      assert !BeingDropped(w', at) by {
        forall r | 0 <= r < |w.procs| ensures w'.procs[r].pc != DroppingAside(at) {
          assert LocalOk(w, r, w.procs[r]);
        }
      }
      assert at in w'.dir && w'.dir[at] == w'.procs[q].holds.value;
    }
  }

  /** An owner's last unlink removes its own file or nothing, and nobody is left an owner. */
  lemma LastUnlinkKeepsExclusive(w: World, p: nat, m: Move)
    requires Sound(w) && Exclusive(w) && Enabled(w, p, m) && (m.Abandon? || m.UnlinkRelease?)
    ensures Exclusive(Effect(w, p, m))
    ensures w.procs[p].holds.Some?
    ensures LockPath in w.dir ==> w.dir[LockPath] == w.procs[p].holds.value
  {
    var w' := Effect(w, p, m);
    assert LocalOk(w, p, w.procs[p]) && Owner(w, p) && Secure(w, p);
    forall q ensures !Owner(w', q) {
      assert Owner(w', q) ==> Owner(w, q);
    }
  }

  lemma LogKeepsExclusive(w: World, f: nat)
    requires Exclusive(w)
    ensures Exclusive(w.(reclaimed := w.reclaimed + [f]))
  {
    var w' := w.(reclaimed := w.reclaimed + [f]);
    forall q | Owner(w', q) ensures Owner(w, q) && Secure(w, q) {
      assert Owner(w, q);
    }
    forall at | !BeingDropped(w, at) ensures !BeingDropped(w', at) {}
    QuietStepKeepsExclusive(w, w');
  }

  lemma DropAsideKeepsExclusive(w: World, p: nat, m: Move)
    requires Sound(w) && Exclusive(w) && Enabled(w, p, m) && (m.DropAside? || m.DeleteAside?)
    ensures Exclusive(Effect(w, p, m))
  {
    var l := w.procs[p];
    var at := l.pc.at;
    assert LocalOk(w, p, l);
    HandleIsOwn(w, p);
    var l' := Effect(w, p, m).procs[p];
    if m.ok {
      if m.DeleteAside? {
        forall q | Owner(w, q) ensures w.procs[q].holds != Some(w.dir[at]) {
          assert LocalOk(w, q, w.procs[q]);
        }
      } else {
        assert BeingDropped(w, at);
      }
      UnlinkKeepsExclusive(w, at);
      var w1 := Unlink(w, at);
      assert Owner(w1, p) ==> Owner(w, p);
      PutKeepsExclusive(w1, p, l');
      if m.DeleteAside? {
        LogKeepsExclusive(Put(w1, p, l'), w.dir[at]);
      }
    } else {
      PutKeepsExclusive(w, p, l');
    }
  }

  lemma OtherStepKeepsExclusive(w: World, p: nat, m: Move)
    requires Sound(w) && Exclusive(w) && Enabled(w, p, m)
    requires m.FailFill? || m.DropPrivate? || m.ReadBack? || m.Probe? || m.TestPid?
             || m.Recheck? || m.Verify? || m.CheckRelease?
             || m == Link(false) || m == MoveAside(false)
             || (m.Link? && LockPath in w.dir) || (m.MoveAside? && LockPath !in w.dir)
    ensures Exclusive(Effect(w, p, m))
  {
    var l := w.procs[p];
    assert LocalOk(w, p, l);
    HandleIsOwn(w, p);
    var l' := Effect(w, p, m).procs[p];
    if m.ReadBack? {
      assert Owner(w, p) && Secure(w, p);
    }
    PutKeepsExclusive(w, p, l');
    if m == DropPrivate(true) {
      UnlinkKeepsExclusive(Put(w, p, l'), Private(p, l.pc.file));
    }
  }

  lemma StepKeepsExclusive(w: World, a: Action)
    requires Sound(w) && Exclusive(w) && CanTake(w, a) && Undisturbed(w, a)
    ensures Exclusive(Take(w, a))
  {
    match a
    case Die(pid) => DeathKeepsExclusive(w, pid);
    case Do(p, m) =>
      match m {
        case Create =>
          AllocateKeepsExclusive(w, p);
          HandleIsOwn(w, p);
          PutKeepsExclusive(Allocate(w, p), p, Effect(w, p, m).procs[p]);
        case Fill(tag, identity) => FillKeepsExclusive(w, p, Snapshot(Whole(Some(p), tag), identity));
        case Link(ok) =>
          if ok && LockPath !in w.dir { LinkKeepsExclusive(w, p, m); } else { OtherStepKeepsExclusive(w, p, m); }
        case MoveAside(ok) =>
          if ok && LockPath in w.dir { MoveAsideKeepsExclusive(w, p, m); } else { OtherStepKeepsExclusive(w, p, m); }
        case PutBack(_) => PutBackKeepsExclusive(w, p, m);
        case Abandon(_) => LastUnlinkKeepsExclusive(w, p, m);
        case UnlinkRelease(_) => LastUnlinkKeepsExclusive(w, p, m);
        case DropAside(_) => DropAsideKeepsExclusive(w, p, m);
        case DeleteAside(_) => DropAsideKeepsExclusive(w, p, m);
        case _ => OtherStepKeepsExclusive(w, p, m);
      }
  }
}
