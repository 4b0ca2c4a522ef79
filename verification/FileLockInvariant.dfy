/** What every reachable world of the lock-file protocol keeps, whatever the interleaving
    and whichever calls fail. */
module FileLockInvariant {
  import opened Basics
  import opened FileLock

  /** A reclaimer that moved a file aside and may still put it back or delete it. */
  predicate Custody(l: Local) {
    l.pc.MovedAside? || l.pc.PuttingBack? || l.pc.Verified?
  }

  predicate HasAside(l: Local) {
    Custody(l) || l.pc.DroppingAside?
  }

  /** The file this reclaimer keeps in custody, if any. */
  function Kept(w: World, l: Local): Option<nat> {
    if Custody(l) && l.pc.at in w.dir then Some(w.dir[l.pc.at]) else None
  }

  /** The process prepares a file that is not published yet. */
  predicate Preparing(l: Local) {
    l.pc.Created? || l.pc.Filled?
  }

  ghost predicate FilesOk(w: World) {
    && (forall f :: f in w.files ==> f < w.next)
    && (forall f, g :: f in w.files && g in w.files && f != g && w.files[f].seen.content.Whole?
          ==> w.files[f].seen != w.files[g].seen)
  }

  /** Every file under a shared name carries a complete payload. */
  ghost predicate DirOk(w: World) {
    forall path :: path in w.dir ==>
      && w.dir[path] in w.files
      && (path.Private? || w.files[w.dir[path]].seen.content.Whole?)
      && (path.LockPath? || path.nonce < w.next)
  }

  ghost predicate LocalOk(w: World, p: nat, l: Local) {
    && (l.stale.Some? ==> Stale(w, l.stale.value))
    && (l.pc.Probed? ==> l.pc.snapshot.content.Whole?)
    && (l.pc.Rechecked? || l.pc.MovedAside? || l.pc.Verified? ==> l.stale.Some?)
    && (HasAside(l) ==> l.pc.at.Aside? && l.pc.at.proc == p && l.pc.at in w.dir)
    && (l.pc.Verified? ==> Look(w, l.pc.at) == l.stale)
    && (Preparing(l) ==> l.pc.file in w.files && w.files[l.pc.file].creator == p && l.holds.None?)
    && (l.pc.Created? ==> w.files[l.pc.file].seen.content.Partial?)
    && (l.pc.Filled? ==> w.files[l.pc.file].seen.content.Whole? && w.files[l.pc.file].seen.content.pid == Some(p))
    && (l.pc.Linked? ==> l.holds == if l.pc.won then Some(l.pc.file) else None)
    && (l.pc.ReadingBack? || l.pc.Abandoning? || l.pc.Releasing? ==> l.holds.Some?)
    && (l.pc.Releasing? ==> l.handle.Some?)
    && (l.handle.Some? ==> l.holds.Some?)
    && (Preparing(l) || l.pc.Linked? || l.pc.ReadingBack? || l.pc.Abandoning? ==> l.handle.None?)
    && (l.holds.Some? ==> Held(w, p, l.holds.value))
  }

  /** The payload of a held file names its holder. */
  predicate Held(w: World, p: nat, f: nat) {
    f in w.files && w.files[f].seen.content.Whole? && w.files[f].seen.content.pid == Some(p)
  }

  ghost predicate LocalsOk(w: World) {
    forall p :: 0 <= p < |w.procs| ==> LocalOk(w, p, w.procs[p])
  }

  /** A published file is in at most one of: the lock path, one reclaimer's custody. */
  ghost predicate Placed(w: World) {
    && (forall p, q :: 0 <= p < q < |w.procs| && Custody(w.procs[p]) && Custody(w.procs[q])
          ==> Kept(w, w.procs[p]) != Kept(w, w.procs[q]))
    && (forall p :: 0 <= p < |w.procs| && Custody(w.procs[p]) && LockPath in w.dir
          ==> Kept(w, w.procs[p]) != Some(w.dir[LockPath]))
  }

  /** A file being prepared is not published anywhere and was never reclaimed. */
  ghost predicate Unpublished(w: World, f: nat) {
    && f !in w.reclaimed
    && forall path :: path in w.dir && !path.Private? ==> w.dir[path] != f
  }

  ghost predicate PreparedOk(w: World) {
    forall p :: 0 <= p < |w.procs| && Preparing(w.procs[p]) ==> Unpublished(w, w.procs[p].pc.file)
  }

  /** A reclaimed file was stale, is off the lock path, and nobody can bring it back. */
  ghost predicate Gone(w: World, f: nat) {
    && f in w.files
    && Stale(w, w.files[f].seen)
    && (LockPath in w.dir ==> w.dir[LockPath] != f)
    && (forall p :: 0 <= p < |w.procs| && Custody(w.procs[p]) ==> Kept(w, w.procs[p]) != Some(f))
  }

  ghost predicate ReclaimedOk(w: World) {
    && (forall i, j :: 0 <= i < j < |w.reclaimed| ==> w.reclaimed[i] != w.reclaimed[j])
    && (forall f :: f in w.reclaimed ==> Gone(w, f))
  }

  ghost predicate Sound(w: World) {
    && FilesOk(w) && DirOk(w) && LocalsOk(w)
    && Placed(w) && PreparedOk(w) && ReclaimedOk(w)
  }

  lemma InitialIsSound(w: World)
    requires Initial(w)
    ensures Sound(w)
  {
  }

  // ---- each primitive edit keeps the invariant ----

  lemma LocalsFrame(w: World, w': World)
    requires DirOk(w) && LocalsOk(w) && w'.procs == w.procs && w.dead <= w'.dead
    requires forall f :: f in w.files ==> f in w'.files && w'.files[f] == w.files[f]
    requires forall p :: 0 <= p < |w.procs| && HasAside(w.procs[p]) && w.procs[p].pc.at in w.dir ==>
      w.procs[p].pc.at in w'.dir && w'.dir[w.procs[p].pc.at] == w.dir[w.procs[p].pc.at]
    ensures LocalsOk(w')
  {
    forall p | 0 <= p < |w.procs| ensures LocalOk(w', p, w.procs[p]) {
      assert LocalOk(w, p, w.procs[p]);
    }
  }

  /** Shared names and locals stay as they are. */
  lemma PlacesFrame(w: World, w': World)
    requires LocalsOk(w) && w'.procs == w.procs
    requires forall path: Path :: !path.Private? ==> (path in w'.dir <==> path in w.dir)
    requires forall path: Path :: !path.Private? && path in w.dir ==> w'.dir[path] == w.dir[path]
    ensures forall p :: 0 <= p < |w.procs| ==> Kept(w', w.procs[p]) == Kept(w, w.procs[p])
  {
    forall p | 0 <= p < |w.procs| ensures Kept(w', w.procs[p]) == Kept(w, w.procs[p]) {
      assert LocalOk(w, p, w.procs[p]);
    }
  }

  lemma DeathKeepsSound(w: World, pid: nat)
    requires Sound(w)
    ensures Sound(w.(dead := w.dead + {pid}))
  {
    var w' := w.(dead := w.dead + {pid});
    LocalsFrame(w, w');
  }

  lemma LocalsAfterPut(w: World, p: nat, l: Local)
    requires LocalsOk(w) && p < |w.procs| && LocalOk(w, p, l)
    ensures LocalsOk(Put(w, p, l))
  {
    var w' := Put(w, p, l);
    forall q | 0 <= q < |w.procs| ensures LocalOk(w', q, w'.procs[q]) {
      assert q != p ==> LocalOk(w, q, w.procs[q]);
    }
  }

  lemma PutKeepsSound(w: World, p: nat, l: Local)
    requires Sound(w) && p < |w.procs| && LocalOk(w, p, l)
    requires Preparing(l) ==> Preparing(w.procs[p]) && w.procs[p].pc.file == l.pc.file
    requires Custody(l) ==> Custody(w.procs[p]) && w.procs[p].pc.at == l.pc.at
    ensures Sound(Put(w, p, l))
  {
    LocalsAfterPut(w, p, l);
  }

  lemma UnlinkKeepsSound(w: World, path: Path)
    requires Sound(w)
    requires forall p :: 0 <= p < |w.procs| && HasAside(w.procs[p]) ==> w.procs[p].pc.at != path
    ensures Sound(Unlink(w, path))
  {
    var w' := Unlink(w, path);
    LocalsFrame(w, w');
  }

  lemma NameKeepsSound(w: World, f: nat)
    requires Sound(w) && LockPath !in w.dir
    requires f in w.files && w.files[f].seen.content.Whole? && f !in w.reclaimed
    requires forall p :: 0 <= p < |w.procs| && Preparing(w.procs[p]) ==> w.procs[p].pc.file != f
    requires forall p :: 0 <= p < |w.procs| && Custody(w.procs[p]) ==> Kept(w, w.procs[p]) != Some(f)
    ensures Sound(Name(w, LockPath, f))
  {
    var w' := Name(w, LockPath, f);
    LocalsFrame(w, w');
    assert Placed(w') && PreparedOk(w');
    assert ReclaimedOk(w') by {
      forall g | g in w'.reclaimed ensures Gone(w', g) {
        assert Gone(w, g);
      }
    }
  }

  lemma NewFileKeepsSound(w: World, file: File)
    requires Sound(w) && file.seen.content.Partial?
    ensures w.next !in w.files && Unpublished(w, w.next)
    ensures Sound(w.(files := w.files[w.next := file], next := w.next + 1))
  {
    var w' := w.(files := w.files[w.next := file], next := w.next + 1);
    LocalsFrame(w, w');
  }

  lemma NamePrivateKeepsSound(w: World, p: nat, f: nat)
    requires Sound(w) && f in w.files && f < w.next
    ensures Sound(Name(w, Private(p, f), f))
  {
    var w' := Name(w, Private(p, f), f);
    assert forall q :: 0 <= q < |w.procs| && HasAside(w.procs[q]) ==> LocalOk(w, q, w.procs[q]);
    LocalsFrame(w, w');
    PlacesFrame(w, w');
  }

  lemma AllocateKeepsSound(w: World, p: nat)
    requires Sound(w)
    ensures Sound(Allocate(w, p)) && Unpublished(Allocate(w, p), w.next)
  {
    var w' := w.(files := w.files[w.next := NewFile(p)], next := w.next + 1);
    NewFileKeepsSound(w, NewFile(p));
    NamePrivateKeepsSound(w', p, w.next);
    assert Allocate(w, p) == Name(w', Private(p, w.next), w.next);
  }

  lemma CreateKeepsSound(w: World, p: nat)
    requires Sound(w) && Enabled(w, p, Create)
    ensures Sound(Effect(w, p, Create))
  {
    AllocateKeepsSound(w, p);
    var l := w.procs[p].(pc := Created(w.next));
    assert LocalOk(w, p, w.procs[p]);
    StartKeepsSound(Allocate(w, p), p, l);
  }

  /** Process `p` starts to prepare an unpublished file, or takes a file into custody. */
  lemma StartKeepsSound(w: World, p: nat, l: Local)
    requires Sound(w) && p < |w.procs| && LocalOk(w, p, l)
    requires Preparing(l) ==> Unpublished(w, l.pc.file)
    requires Custody(l) ==>
      && (LockPath in w.dir ==> Kept(w, l) != Some(w.dir[LockPath]))
      && (forall q :: 0 <= q < |w.procs| && q != p && Custody(w.procs[q]) ==> Kept(w, l) != Kept(w, w.procs[q]))
      && (forall f :: f in w.reclaimed ==> Kept(w, l) != Some(f))
    ensures Sound(Put(w, p, l))
  {
    LocalsAfterPut(w, p, l);
    var w' := Put(w, p, l);
    assert FilesOk(w') && DirOk(w');
    assert forall q :: 0 <= q < |w.procs| ==> w'.procs[q] == if q == p then l else w.procs[q];
    assert Placed(w');
    assert ReclaimedOk(w') by {
      forall f | f in w.reclaimed ensures Gone(w', f) {
        assert Gone(w, f);
      }
    }
  }

  lemma FillKeepsSound(w: World, p: nat, seen: Snapshot)
    requires Sound(w) && p < |w.procs| && w.procs[p].pc.Created?
    requires seen.content.Whole? && seen.content.pid == Some(p)
    requires forall g :: g in w.files ==> w.files[g].seen != seen
    ensures w.procs[p].pc.file in w.files
    ensures Sound(FillFile(w, p, seen))
  {
    assert LocalOk(w, p, w.procs[p]);
    LocalsAfterFill(w, p, seen);
    PlacesAfterFill(w, p, seen);
  }

  lemma LocalsAfterFill(w: World, p: nat, seen: Snapshot)
    requires Sound(w) && p < |w.procs| && w.procs[p].pc.Created? && w.procs[p].pc.file in w.files
    requires seen.content.Whole? && seen.content.pid == Some(p)
    ensures LocalsOk(FillFile(w, p, seen))
  {
    var w' := FillFile(w, p, seen);
    assert LocalOk(w, p, w.procs[p]);
    forall q | 0 <= q < |w.procs| ensures LocalOk(w', q, w'.procs[q]) {
      assert LocalOk(w, q, w.procs[q]);
    }
  }

  lemma PlacesAfterFill(w: World, p: nat, seen: Snapshot)
    requires Sound(w) && p < |w.procs| && w.procs[p].pc.Created? && w.procs[p].pc.file in w.files
    requires seen.content.Whole? && forall g :: g in w.files ==> w.files[g].seen != seen
    ensures var w' := FillFile(w, p, seen);
      FilesOk(w') && DirOk(w') && Placed(w') && PreparedOk(w') && ReclaimedOk(w')
  {
    var w', f := FillFile(w, p, seen), w.procs[p].pc.file;
    assert LocalOk(w, p, w.procs[p]) && Unpublished(w, f);
    forall g | g in w'.reclaimed ensures Gone(w', g) {
      assert Gone(w, g) && g != f;
    }
  }

  lemma RenameKeepsSound(w: World, p: nat)
    requires Sound(w) && LockPath in w.dir
    ensures Aside(p, w.next) !in w.dir
    ensures Sound(Rename(w, Aside(p, w.next)))
  {
    var at := Aside(p, w.next);
    var w' := Rename(w, at);
    LocalsFrame(w, w');
  }

  lemma MoveAsideKeepsSound(w: World, p: nat)
    requires Sound(w) && p < |w.procs| && w.procs[p].pc.Rechecked? && LockPath in w.dir
    ensures Sound(Put(Rename(w, Aside(p, w.next)), p, w.procs[p].(pc := MovedAside(Aside(p, w.next)))))
  {
    assert LocalOk(w, p, w.procs[p]);
    RenameKeepsSound(w, p);
    var at := Aside(p, w.next);
    var w' := Rename(w, at);
    forall q | 0 <= q < |w.procs| && Custody(w.procs[q]) ensures Kept(w', w.procs[q]) != Some(w.dir[LockPath]) {
      assert LocalOk(w, q, w.procs[q]);
    }
    StartKeepsSound(w', p, w.procs[p].(pc := MovedAside(at)));
  }

  lemma DeleteKeepsSound(w: World, p: nat)
    requires Sound(w) && p < |w.procs| && w.procs[p].pc.Verified?
    ensures w.procs[p].pc.at in w.dir
    ensures Sound(Delete(Put(w, p, w.procs[p].(pc := Idle)), w.procs[p].pc.at))
    ensures Gone(Delete(Put(w, p, w.procs[p].(pc := Idle)), w.procs[p].pc.at), w.dir[w.procs[p].pc.at])
  {
    var l := w.procs[p];
    assert LocalOk(w, p, l);
    var at, f := l.pc.at, w.dir[l.pc.at];
    var w1 := Put(w, p, l.(pc := Idle));
    PutKeepsSound(w, p, l.(pc := Idle));
    forall q | 0 <= q < |w.procs| && HasAside(w1.procs[q]) ensures w1.procs[q].pc.at != at {
      assert LocalOk(w, q, w.procs[q]);
    }
    UnlinkKeepsSound(w1, at);
    var w2 := Unlink(w1, at);
    assert Gone(w2, f) by {
      assert Stale(w, w.files[f].seen);
      forall q | 0 <= q < |w.procs| && Custody(w1.procs[q]) ensures Kept(w2, w1.procs[q]) != Some(f) {
        assert Kept(w, w.procs[p]) != Kept(w, w.procs[q]);
      }
    }
    LogKeepsSound(w2, f);
  }

  lemma LogKeepsSound(w: World, f: nat)
    requires Sound(w) && Gone(w, f) && f !in w.reclaimed
    requires forall p :: 0 <= p < |w.procs| && Preparing(w.procs[p]) ==> w.procs[p].pc.file != f
    ensures Sound(w.(reclaimed := w.reclaimed + [f]))
  {
    var w' := w.(reclaimed := w.reclaimed + [f]);
    LocalsFrame(w, w');
    assert ReclaimedOk(w') by {
      forall g | g in w'.reclaimed ensures Gone(w', g) {
        assert g == f || g in w.reclaimed;
        assert Gone(w, g);
      }
    }
  }

  // ---- every step keeps the invariant ----

  lemma AcquireKeepsSound(w: World, p: nat, m: Move)
    requires Sound(w) && Enabled(w, p, m)
    requires m.Create? || m.Fill? || m.FailFill? || m.Link? || m.DropPrivate?
    ensures Sound(Effect(w, p, m))
  {
    var l := w.procs[p];
    assert LocalOk(w, p, l);
    match m
    case Create => CreateKeepsSound(w, p);
    case Fill(tag, identity) => FillKeepsSound(w, p, Snapshot(Whole(Some(p), tag), identity));
    case FailFill => PutKeepsSound(w, p, l.(pc := Idle));
    case Link(ok) =>
      if ok && LockPath !in w.dir {
        var l' := l.(pc := Linked(l.pc.file, true), holds := Some(l.pc.file));
        PutKeepsSound(w, p, l');
        NameKeepsSound(Put(w, p, l'), l.pc.file);
      } else {
        PutKeepsSound(w, p, l.(pc := Linked(l.pc.file, false)));
      }
    case DropPrivate(ok) =>
      var l' := l.(pc := if l.pc.won then ReadingBack else Idle);
      PutKeepsSound(w, p, l');
      if ok { UnlinkKeepsSound(Put(w, p, l'), Private(p, l.pc.file)); }
  }

  lemma HoldKeepsSound(w: World, p: nat, m: Move)
    requires Sound(w) && Enabled(w, p, m)
    requires m.ReadBack? || m.Abandon? || m.Probe? || m.TestPid? || m.CheckRelease? || m.UnlinkRelease?
    ensures Sound(Effect(w, p, m))
  {
    var l := w.procs[p];
    assert LocalOk(w, p, l);
    var l' := Effect(w, p, m).procs[p];
    PutKeepsSound(w, p, l');
    if (m.Abandon? || m.UnlinkRelease?) && m.ok {
      var w' := Put(w, p, l');
      forall q | 0 <= q < |w.procs| && HasAside(w'.procs[q]) ensures w'.procs[q].pc.at != LockPath {
        assert LocalOk(w', q, w'.procs[q]);
      }
      UnlinkKeepsSound(w', LockPath);
    }
  }

  lemma ReclaimKeepsSound(w: World, p: nat, m: Move)
    requires Sound(w) && Enabled(w, p, m)
    requires m.Recheck? || m.MoveAside? || m.Verify? || m.DeleteAside?
    ensures Sound(Effect(w, p, m))
  {
    var l := w.procs[p];
    assert LocalOk(w, p, l);
    if m.MoveAside? && m.ok && LockPath in w.dir {
      MoveAsideKeepsSound(w, p);
    } else if m.DeleteAside? && m.ok {
      DeleteKeepsSound(w, p);
    } else {
      PutKeepsSound(w, p, Effect(w, p, m).procs[p]);
    }
  }

  lemma GiveBackKeepsSound(w: World, p: nat, m: Move)
    requires Sound(w) && Enabled(w, p, m)
    requires m.PutBack? || m.DropAside?
    ensures Sound(Effect(w, p, m))
  {
    var l := w.procs[p];
    assert LocalOk(w, p, l);
    var l' := Effect(w, p, m).procs[p];
    PutKeepsSound(w, p, l');
    var w' := Put(w, p, l');
    if m.PutBack? && m.ok && LockPath !in w.dir {
      var f := w.dir[l.pc.at];
      assert Kept(w, l) == Some(f);
      NameKeepsSound(w', f);
    } else if m.DropAside? && m.ok {
      forall q | 0 <= q < |w.procs| && HasAside(w'.procs[q]) ensures w'.procs[q].pc.at != l.pc.at {
        assert LocalOk(w', q, w'.procs[q]);
      }
      UnlinkKeepsSound(w', l.pc.at);
    }
  }

  lemma StepKeepsSound(w: World, a: Action)
    requires Sound(w) && CanTake(w, a)
    ensures Sound(Take(w, a))
  {
    match a
    case Die(pid) => DeathKeepsSound(w, pid);
    case Do(p, m) =>
      if m.Create? || m.Fill? || m.FailFill? || m.Link? || m.DropPrivate? {
        AcquireKeepsSound(w, p, m);
      } else if m.Recheck? || m.MoveAside? || m.Verify? || m.DeleteAside? {
        ReclaimKeepsSound(w, p, m);
      } else if m.PutBack? || m.DropAside? {
        GiveBackKeepsSound(w, p, m);
      } else {
        HoldKeepsSound(w, p, m);
      }
  }
}
