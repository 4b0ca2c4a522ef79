/** Whether a lock that nobody owns can be taken again: exactly when no step has left a file on the
    lock path that is neither stale nor anybody's. */
module FileLockRelease {
  import opened Basics
  import opened FileLock
  import opened FileLockInvariant
  import opened FileLockSafety
  import opened FileLockRuns
  import opened FileLockCalls

  // ---- who answers for the file on the path ----

  ghost predicate HeldByLive(w: World, f: nat) {
    exists p :: Owner(w, p) && w.procs[p].holds == Some(f)
  }

  /** A contender may reclaim the file, or its owner will release it. */
  ghost predicate TakenCareOf(w: World, f: nat) {
    && f in w.files
    && var c := w.files[f].seen.content;
    (c.Whole? && (c.pid == None || c.pid.value in w.dead)) || HeldByLive(w, f)
  }

  ghost predicate Attended(w: World) {
    LockPath in w.dir ==> TakenCareOf(w, w.dir[LockPath])
  }

  /** The move ends the ownership of its process and leaves the lock path as it is. */
  predicate GivesUp(w: World, p: nat, m: Move)
    requires p < |w.procs|
  {
    || m == Abandon(false) || m == UnlinkRelease(false)
    || (m.CheckRelease? && !(m.ok && Look(w, LockPath) == w.procs[p].handle))
  }

  /** The step leaves a live lock file on the path that nobody owns: a put-back links one, or an
      owner gives up its own one without unlinking it. */
  ghost predicate Leaves(w: World, a: Action)
    requires CanTake(w, a)
  {
    a.Do? &&
    if a.move.PutBack? then LinkedBy(w, a).Some? && !TakenCareOf(w, LinkedBy(w, a).value)
    else
      && GivesUp(w, a.proc, a.move) && LockPath in w.dir
      && w.procs[a.proc].holds == Some(w.dir[LockPath])
  }

  // ---- one step ----

  /** Files, deaths and holders that stay leave the file taken care of. */
  lemma CareFrame(w: World, w': World, f: nat)
    requires TakenCareOf(w, f) && f in w'.files && w'.files[f] == w.files[f] && w.dead <= w'.dead
    requires |w'.procs| == |w.procs| && LocalsOk(w)
    requires forall p :: Owner(w, p) && w.procs[p].holds == Some(f) ==> w'.procs[p].holds == Some(f)
    ensures TakenCareOf(w', f)
  {
    if !Stale(w, w.files[f].seen) {
      var p :| Owner(w, p) && w.procs[p].holds == Some(f);
      assert LocalOk(w, p, w.procs[p]);
      assert Owner(w', p) || Stale(w', w'.files[f].seen);
    }
  }

  lemma DeathKeepsAttended(w: World, pid: nat)
    requires Sound(w) && Attended(w)
    ensures Attended(Take(w, Die(pid)))
  {
    var w' := Take(w, Die(pid));
    if LockPath in w.dir {
      CareFrame(w, w', w.dir[LockPath]);
    }
  }

  /** A move that names or frees the lock path, or gives up an ownership. */
  predicate TouchesPath(w: World, p: nat, m: Move)
    requires p < |w.procs|
  {
    || m == Link(true) || m == MoveAside(true) || m == PutBack(true)
    || m == Abandon(true) || m == UnlinkRelease(true) || GivesUp(w, p, m)
  }

  lemma QuietMoveKeepsPath(w: World, p: nat, m: Move, w': World)
    requires Enabled(w, p, m) && !TouchesPath(w, p, m) && w' == Effect(w, p, m)
    requires HasAside(w.procs[p]) ==> w.procs[p].pc.at.Aside?
    ensures LockPath in w'.dir <==> LockPath in w.dir
    ensures LockPath in w.dir ==> w'.dir[LockPath] == w.dir[LockPath]
  {
  }

  lemma QuietMoveKeepsFiles(w: World, p: nat, m: Move, w': World)
    requires Sound(w) && Enabled(w, p, m) && !TouchesPath(w, p, m) && w' == Effect(w, p, m) && LockPath in w.dir
    ensures w.dir[LockPath] in w'.files && w'.files[w.dir[LockPath]] == w.files[w.dir[LockPath]]
  {
    assert LocalOk(w, p, w.procs[p]);
    assert Preparing(w.procs[p]) ==> Unpublished(w, w.procs[p].pc.file);
  }

  lemma QuietMoveKeepsHolders(w: World, p: nat, m: Move, w': World)
    requires Enabled(w, p, m) && !TouchesPath(w, p, m) && w' == Effect(w, p, m)
    ensures w'.procs[p].holds == w.procs[p].holds
  {
  }

  lemma QuietMoveKeepsAttended(w: World, p: nat, m: Move, w': World)
    requires Sound(w) && Attended(w) && Enabled(w, p, m) && !TouchesPath(w, p, m) && w' == Effect(w, p, m)
    ensures Attended(w')
  {
    assert LocalOk(w, p, w.procs[p]);
    QuietMoveKeepsPath(w, p, m, w');
    if LockPath in w.dir {
      QuietMoveKeepsFiles(w, p, m, w');
      QuietMoveKeepsHolders(w, p, m, w');
      OthersStay(w, p, m, w');
      CareFrame(w, w', w.dir[LockPath]);
    }
  }

  /** The linked file is held, the path moved aside or unlinked is free. */
  lemma FreeingOrLinkingIsAttended(w: World, p: nat, m: Move, w': World)
    requires Sound(w) && Attended(w) && Enabled(w, p, m) && w' == Effect(w, p, m)
    requires m == Link(true) || m == MoveAside(true) || m == Abandon(true) || m == UnlinkRelease(true)
    ensures Attended(w')
  {
    if m == Link(true) {
      assert LocalOk(w, p, w.procs[p]);
      if LockPath in w.dir {
        OthersStay(w, p, m, w');
        CareFrame(w, w', w.dir[LockPath]);
      } else {
        assert Owner(w', p) && w'.procs[p].holds == Some(w'.dir[LockPath]);
      }
    }
  }

  lemma PutBackLeavesExactly(w: World, p: nat, w': World)
    requires Sound(w) && Attended(w) && Enabled(w, p, PutBack(true)) && w' == Effect(w, p, PutBack(true))
    ensures Attended(w') <==> !Leaves(w, Do(p, PutBack(true)))
  {
    assert LocalOk(w, p, w.procs[p]);
    assert w'.files == w.files && w'.dead == w.dead;
    forall q ensures Owner(w', q) <==> Owner(w, q) {}
    forall q | Owner(w, q) ensures w'.procs[q].holds == w.procs[q].holds {}
  }

  lemma GivingUpLeavesExactly(w: World, p: nat, m: Move, w': World)
    requires Sound(w) && Attended(w) && Enabled(w, p, m) && GivesUp(w, p, m) && w' == Effect(w, p, m)
    ensures Attended(w') <==> !Leaves(w, Do(p, m))
  {
    GivingUpChangesOnlyTheHolder(w, p, m, w');
    assert LocalOk(w, p, w.procs[p]);
    if LockPath in w.dir {
      var f := w.dir[LockPath];
      if w.procs[p].holds == Some(f) {
        forall q | Owner(w', q) ensures w'.procs[q].holds != Some(f) {
          assert LocalOk(w, q, w.procs[q]);
        }
      } else {
        CareFrame(w, w', f);
      }
    }
  }

  lemma GivingUpChangesOnlyTheHolder(w: World, p: nat, m: Move, w': World)
    requires Enabled(w, p, m) && GivesUp(w, p, m) && w' == Effect(w, p, m)
    ensures w'.files == w.files && w'.dir == w.dir && w'.dead == w.dead && |w'.procs| == |w.procs|
    ensures w'.procs[p].holds == None && forall q :: 0 <= q < |w.procs| && q != p ==> w'.procs[q] == w.procs[q]
  {
  }

  /** One step leaves the path attended exactly when it leaves no live file that nobody owns there. */
  lemma AttendedExactlyWhenNothingIsLeft(w: World, a: Action)
    requires Sound(w) && Attended(w) && CanTake(w, a)
    ensures Attended(Take(w, a)) <==> !Leaves(w, a)
  {
    match a
    case Die(pid) => DeathKeepsAttended(w, pid);
    case Do(p, m) =>
      var w' := Take(w, a);
      if m == PutBack(true) {
        PutBackLeavesExactly(w, p, w');
      } else if GivesUp(w, p, m) {
        GivingUpLeavesExactly(w, p, m, w');
      } else if TouchesPath(w, p, m) {
        FreeingOrLinkingIsAttended(w, p, m, w');
      } else {
        QuietMoveKeepsAttended(w, p, m, w');
      }
  }

  // ---- whole runs ----

  ghost predicate LeavesNothing(ws: seq<World>, acts: seq<Action>, n: nat)
    requires Steps(ws, acts) && n <= |acts|
  {
    forall i :: 0 <= i < n ==> !Leaves(ws[i], acts[i])
  }

  lemma {:induction false} LeavingNothingKeepsAttended(ws: seq<World>, acts: seq<Action>, i: nat)
    requires Run(ws, acts) && i < |ws| && Attended(ws[0]) && LeavesNothing(ws, acts, i)
    ensures Attended(ws[i])
  {
    if i > 0 {
      LeavingNothingKeepsAttended(ws, acts, i - 1);
      RunIsSound(ws, acts, i - 1);
      AttendedExactlyWhenNothingIsLeft(ws[i - 1], acts[i - 1]);
    }
  }

  /** Over a whole run, the path names only files that are stale or owned exactly when it starts so
      and no step leaves another one there. */
  lemma {:induction false} AlwaysAttendedExactly(ws: seq<World>, acts: seq<Action>)
    requires Run(ws, acts)
    ensures (forall i :: 0 <= i < |ws| ==> Attended(ws[i])) <==> Attended(ws[0]) && LeavesNothing(ws, acts, |acts|)
  {
    if forall i :: 0 <= i < |ws| ==> Attended(ws[i]) {
      forall i | 0 <= i < |acts| ensures !Leaves(ws[i], acts[i]) {
        RunIsSound(ws, acts, i);
        AttendedExactlyWhenNothingIsLeft(ws[i], acts[i]);
        assert Attended(ws[i]) && Attended(ws[i + 1]);
      }
    }
    if Attended(ws[0]) && LeavesNothing(ws, acts, |acts|) {
      forall i | 0 <= i < |ws| ensures Attended(ws[i]) {
        LeavingNothingKeepsAttended(ws, acts, i);
      }
    }
  }

  /** Where the owners' files are safe and no call fails, only a put-back can leave a file. */
  lemma OnlyPutBackLeaves(w: World, a: Action)
    requires Sound(w) && Exclusive(w) && CanTake(w, a) && Succeeds(a)
    ensures Leaves(w, a) ==> a.move.PutBack?
  {
    assert LocalOk(w, a.proc, w.procs[a.proc]);
    HandleIsOwn(w, a.proc);
  }

  // ---- what it means for the next contender ----

  ghost predicate NobodyOwns(w: World) {
    forall p :: !Owner(w, p)
  }

  function ReclaimCall(p: nat): seq<Action> {
    ProbeAndRecheck(p) + MoveAndDelete(p)
  }

  lemma ReclaimThenAcquire(w: World, p: nat, tag: nat, identity: Identity) returns (ws: seq<World>)
    requires Sound(w) && AtRest(w, p) && w.procs[p].holds.None? && NewPayload(w, p, tag, identity)
    requires LockPath in w.dir && Stale(w, w.files[w.dir[LockPath]].seen)
    ensures Steps(ws, ReclaimCall(p) + AcquireCall(p, tag, identity)) && ws[0] == w
    ensures var w' := ws[11]; Owner(w', p) && LockPath in w'.dir && w'.procs[p].holds == Some(w'.dir[LockPath])
  {
    var us := UncontendedReclaim(w, p);
    StepsKeepSound(us, ReclaimCall(p), 6);
    var vs := UncontendedAcquire(us[6], p, tag, identity);
    ws := Join(us, ReclaimCall(p), vs, AcquireCall(p, tag, identity));
  }

  lemma ReclaimAndAcquireSucceed(p: nat, tag: nat, identity: Identity)
    ensures AllSucceed(AcquireCall(p, tag, identity)) && AllSucceed(ReclaimCall(p) + AcquireCall(p, tag, identity))
  {
    AllSucceedTogether(ProbeAndRecheck(p), MoveAndDelete(p));
    AllSucceedTogether(ReclaimCall(p), AcquireCall(p, tag, identity));
  }

  /** With nobody owning an attended lock, one undisturbed contender gets it without any death. */
  lemma CanBeTakenAgain(w: World, p: nat, tag: nat, identity: Identity)
    returns (ws: seq<World>, acts: seq<Action>)
    requires Sound(w) && Attended(w) && NobodyOwns(w) && AtRest(w, p) && NewPayload(w, p, tag, identity)
    ensures Steps(ws, acts) && ws[0] == w && AllSucceed(acts)
    ensures var w' := ws[|acts|]; Owner(w', p) && LockPath in w'.dir && w'.procs[p].holds == Some(w'.dir[LockPath])
  {
    assert !Owner(w, p);
    ReclaimAndAcquireSucceed(p, tag, identity);
    if LockPath !in w.dir {
      ws := UncontendedAcquire(w, p, tag, identity);
      acts := AcquireCall(p, tag, identity);
    } else {
      ws := ReclaimThenAcquire(w, p, tag, identity);
      acts := ReclaimCall(p) + AcquireCall(p, tag, identity);
    }
  }

  // ---- a run that leaves a file ----

  /** The owner `p` releases while the process `q` has its file aside; `q` then puts it back. */
  function ReleaseMeetsPutBack(p: nat, q: nat): seq<Action> {
    [Do(p, CheckRelease(true)), Do(q, Verify(true)), Do(q, PutBack(true)), Do(q, DropAside(true))]
  }

  lemma PutBackAfterRelease(w: World, p: nat, q: nat, at: Path) returns (ws: seq<World>)
    requires AtRest(w, p) && w.procs[p].handle.Some? && LockPath !in w.dir
    requires q < |w.procs| && q != p && q !in w.dead && w.procs[q].pc == MovedAside(at) && w.procs[q].stale.Some?
    requires at.Aside? && at in w.dir && Look(w, at) != w.procs[q].stale
    ensures Steps(ws, ReleaseMeetsPutBack(p, q)) && ws[0] == w
    ensures
      var w' := ws[4];
      && w'.files == w.files && w'.dead == w.dead && w'.dir == w.dir[LockPath := w.dir[at]] - {at}
      && w'.procs == w.procs[p := w.procs[p].(holds := None, handle := None)][q := w.procs[q].(pc := Idle)]
  {
    var w1 := Effect(w, p, CheckRelease(true));
    var w2 := Effect(w1, q, Verify(true));
    var w3 := Effect(w2, q, PutBack(true));
    ws := [w, w1, w2, w3, Effect(w3, q, DropAside(true))];
  }

  /** Two processes, every call succeeds and nobody dies: the owner's release finds the path free and
      does nothing, the put-back follows, and nobody can get the lock that nobody owns. */
  lemma ReleasedLockCanStay() returns (ws: seq<World>, acts: seq<Action>)
    ensures Run(ws, acts) && AllSucceed(acts) && ws[0] == Leftover(2) && Attended(ws[0])
    ensures
      var w := ws[|acts|];
      && AtRest(w, 0) && AtRest(w, 1) && NobodyOwns(w) && !Attended(w)
      && LockPath in w.dir && Blocked(w, w.dir[LockPath])
      && w.files[w.dir[LockPath]].seen.content == Whole(Some(0), 1)
  {
    ws, acts := LiveLockIsDisplaced(2);
    RunIsSound(ws, acts, |acts|);
    var w := ws[|acts|];
    assert Stale(Leftover(2), Leftover(2).files[0].seen);
    assert LocalOk(w, 0, w.procs[0]) && LocalOk(w, 1, w.procs[1]);
    var more := ReleaseMeetsPutBack(0, 1);
    var us := PutBackAfterRelease(w, 0, 1, w.procs[1].pc.at);
    ws, acts := RunOn(ws, acts, us, more);
  }

  /** Processes 1 and 3 stop after their rechecks. */
  lemma TwoStopAfterTheirRecheck() returns (ws: seq<World>, acts: seq<Action>)
    ensures Run(ws, acts) && AllSucceed(acts) && ws[0] == Leftover(4)
    ensures
      var w, l := ws[|acts|], Local(Rechecked, None, None, Some(Leftover(4).files[0].seen));
      w == Leftover(4).(procs := Leftover(4).procs[1 := l][3 := l])
  {
    LeftoverIsInitial(4);
    var us := ProbeFindsStale(Leftover(4), 1);
    StepsKeepSound(us, ProbeAndRecheck(1), 3);
    var vs := ProbeFindsStale(us[3], 3);
    ws, acts := RunOn(us, ProbeAndRecheck(1), vs, ProbeAndRecheck(3));
  }

  /** Then process 0 reclaims the leftover. */
  lemma LeftoverGoesMeanwhile() returns (ws: seq<World>, acts: seq<Action>)
    ensures Run(ws, acts) && AllSucceed(acts) && ws[0] == Leftover(4)
    ensures
      var w := ws[|acts|];
      && w.dead == {9} && |w.procs| == 4 && w.dir == map[] && w.files == Leftover(4).files
      && AtRest(w, 0) && w.procs[0].holds.None? && w.procs[0].handle.None?
      && w.procs[2] == Local(Idle, None, None, None)
      && w.procs[1].pc.Rechecked? && w.procs[1].stale == Some(Leftover(4).files[0].seen)
      && w.procs[3].pc.Rechecked?
  {
    ws, acts := TwoStopAfterTheirRecheck();
    RunIsSound(ws, acts, |acts|);
    var us := UncontendedReclaim(ws[|acts|], 0);
    AllSucceedTogether(ProbeAndRecheck(0), MoveAndDelete(0));
    ws, acts := RunOn(ws, acts, us, ReclaimCall(0));
  }

  lemma MovesAside(w: World, q: nat) returns (ws: seq<World>, at: Path)
    requires q < |w.procs| && q !in w.dead && w.procs[q].pc.Rechecked? && LockPath in w.dir
    ensures Steps(ws, [Do(q, MoveAside(true))]) && ws[0] == w && at.Aside? && at.proc == q
    ensures
      var w' := ws[1];
      && w'.dir == w.dir[at := w.dir[LockPath]] - {LockPath} && w'.files == w.files && w'.dead == w.dead
      && w'.procs == w.procs[q := w.procs[q].(pc := MovedAside(at))]
  {
    at := Aside(q, w.next);
    ws := OneStep(w, Do(q, MoveAside(true)));
  }

  /** `p` publishes its file, and `q` moves it aside at once. */
  function PublishedAndMoved(p: nat, q: nat): seq<Action> {
    PublishCall(p, 1, ANY_IDENTITY) + [Do(q, MoveAside(true))]
  }

  lemma LinkedFileGoesAside(w: World, p: nat, q: nat) returns (ws: seq<World>, at: Path)
    requires Sound(w) && AtRest(w, p) && w.procs[p].holds.None?
    requires LockPath !in w.dir && NewPayload(w, p, 1, ANY_IDENTITY)
    requires q < |w.procs| && q != p && q !in w.dead && w.procs[q].pc.Rechecked?
    ensures Steps(ws, PublishedAndMoved(p, q)) && ws[0] == w && at.Aside? && at.proc == q
    ensures AllSucceed(PublishedAndMoved(p, q))
    ensures
      var w' := ws[5];
      && w'.dead == w.dead && w'.dir == w.dir[at := w.next]
      && w'.files == w.files[w.next := File(p, Snapshot(Whole(Some(p), 1), ANY_IDENTITY))]
      && w'.procs == w.procs[p := w.procs[p].(pc := ReadingBack, holds := Some(w.next))]
                            [q := w.procs[q].(pc := MovedAside(at))]
  {
    assert LocalOk(w, p, w.procs[p]);
    var us := PublishSteps(w, p, 1, ANY_IDENTITY);
    var vs;
    vs, at := MovesAside(us[4], q);
    ws := Join(us, PublishCall(p, 1, ANY_IDENTITY), vs, [Do(q, MoveAside(true))]);
    assert ws[5].dir == w.dir[at := w.next];
  }

  lemma BesideTheOther(w: World, w': World, p: nat, q: nat, r: nat, f: nat, at: Path)
    requires p < |w.procs| && q < |w.procs| && r < |w.procs| && p != r && q != r && f < w.next
    requires at.Aside? && at in w.dir && w.dir[at] == f && f in w.files && w'.dir == w.dir[LockPath := w.next]
    requires |w'.procs| == |w.procs| && w'.procs == w.procs[r := w'.procs[r]]
    requires w'.files == w.files[w.next := File(r, Snapshot(Whole(Some(r), 2), ANY_IDENTITY))]
    ensures at in w'.dir && w'.dir[at] == f && f in w'.files && w'.files[f] == w.files[f]
    ensures w'.procs[p] == w.procs[p] && w'.procs[q] == w.procs[q]
    ensures w'.dir[LockPath] in w'.files && w'.files[w'.dir[LockPath]].seen.content == Whole(Some(r), 2)
  {
  }

  /** The owner `p` reads back another's file, which `r` moves aside before `q` puts back that of `p`. */
  function ReadsBackAnother(p: nat, q: nat, r: nat): seq<Action> {
    [Do(p, ReadBack(true)), Do(r, MoveAside(true)), Do(q, Verify(true)), Do(q, PutBack(true))]
  }

  lemma HandleOfAnother(w: World, p: nat, q: nat, r: nat, f: nat, at: Path) returns (ws: seq<World>)
    requires p < |w.procs| && q < |w.procs| && r < |w.procs| && p != q && q != r && p != r
    requires p !in w.dead && q !in w.dead && r !in w.dead && at.Aside? && at.proc == q
    requires w.procs[p].pc.ReadingBack? && w.procs[q].pc == MovedAside(at) && w.procs[r].pc.Rechecked?
    requires w.procs[p].holds == Some(f) && w.procs[q].stale.Some?
    requires at in w.dir && w.dir[at] == f && f in w.files && w.procs[q].stale != Some(w.files[f].seen)
    requires LockPath in w.dir && w.dir[LockPath] in w.files && w.files[w.dir[LockPath]].seen != w.files[f].seen
    ensures Steps(ws, ReadsBackAnother(p, q, r)) && ws[0] == w
    ensures
      var w' := ws[4];
      && w'.files == w.files && w'.dead == w.dead && |w'.procs| == |w.procs|
      && LockPath in w'.dir && w'.dir[LockPath] == f
      && w'.procs[p] == w.procs[p].(pc := Idle, handle := Some(w.files[w.dir[LockPath]].seen))
  {
    var w1 := Effect(w, p, ReadBack(true));
    var w2 := Effect(w1, r, MoveAside(true));
    var w3 := Effect(w2, q, Verify(true));
    assert at in w2.dir && w2.dir[at] == f && LockPath !in w2.dir;
    ws := [w, w1, w2, w3, Effect(w3, q, PutBack(true))];
  }

  /** Process 0 links its file and process 1 moves it aside; process 3 is past its recheck too. */
  lemma LiveFileGoesAside() returns (ws: seq<World>, acts: seq<Action>, f: nat, at: Path)
    ensures Run(ws, acts) && AllSucceed(acts) && |ws[0].procs| == 4
    ensures
      var w := ws[|acts|];
      && |w.procs| == 4 && w.dead == {9} && w.procs[0].pc.ReadingBack? && w.procs[0].holds == Some(f)
      && w.procs[1].pc == MovedAside(at) && at.Aside? && at.proc == 1 && at in w.dir && w.dir[at] == f
      && w.procs[1].stale == Some(Leftover(4).files[0].seen)
      && w.procs[2] == Local(Idle, None, None, None) && w.procs[3].pc.Rechecked?
      && f in w.files && w.files[f].seen.content == Whole(Some(0), 1) && LockPath !in w.dir
      && NewPayload(w, 2, 2, ANY_IDENTITY)
  {
    ws, acts := LeftoverGoesMeanwhile();
    RunIsSound(ws, acts, |acts|);
    f := ws[|acts|].next;
    var us;
    us, at := LinkedFileGoesAside(ws[|acts|], 0, 1);
    ws, acts := RunOn(ws, acts, us, PublishedAndMoved(0, 1));
  }

  /** Then process 2 acquires, and both files are live. */
  lemma TwoLiveFiles() returns (ws: seq<World>, acts: seq<Action>, f: nat, at: Path)
    ensures Run(ws, acts) && AllSucceed(acts) && |ws[0].procs| == 4
    ensures
      var w := ws[|acts|];
      && |w.procs| == 4 && w.dead == {9} && w.procs[0].pc.ReadingBack? && w.procs[0].holds == Some(f)
      && w.procs[1].pc == MovedAside(at) && at.Aside? && at.proc == 1 && at in w.dir && w.dir[at] == f
      && w.procs[1].stale == Some(Leftover(4).files[0].seen) && w.procs[3].pc.Rechecked?
      && f in w.files && w.files[f].seen.content == Whole(Some(0), 1)
      && LockPath in w.dir && w.dir[LockPath] in w.files && w.files[w.dir[LockPath]].seen.content == Whole(Some(2), 2)
  {
    ws, acts, f, at := LiveFileGoesAside();
    RunIsSound(ws, acts, |acts|);
    var w := ws[|acts|];
    assert f < w.next;
    var us := UncontendedAcquire(w, 2, 2, ANY_IDENTITY);
    BesideTheOther(w, us[5], 0, 1, 2, f, at);
    ws, acts := RunOn(ws, acts, us, AcquireCall(2, 2, ANY_IDENTITY));
  }

  /** With four processes a release can leave its own file as well, although no call fails and nobody
      dies: its handle describes another's file. */
  lemma ReleaseCanLeave() returns (ws: seq<World>, acts: seq<Action>)
    ensures Run(ws, acts) && AllSucceed(acts + [Do(0, CheckRelease(true))]) && |ws[0].procs| == 4
    ensures CanTake(ws[|acts|], Do(0, CheckRelease(true))) && Leaves(ws[|acts|], Do(0, CheckRelease(true)))
  {
    var f, at;
    ws, acts, f, at := TwoLiveFiles();
    var us := HandleOfAnother(ws[|acts|], 0, 1, 3, f, at);
    ws, acts := RunOn(ws, acts, us, ReadsBackAnother(0, 1, 3));
    AllSucceedTogether(acts, [Do(0, CheckRelease(true))]);
  }

  // ---- an unattended path stays taken until its process dies ----

  /** The path names a live file, nobody owns anything, and nobody is past the recheck of a reclaim. */
  ghost predicate Blocked(w: World, f: nat) {
    && LockPath in w.dir && w.dir[LockPath] == f && f in w.files && !Stale(w, w.files[f].seen)
    && NobodyOwns(w)
    && forall p :: 0 <= p < |w.procs| && p !in w.dead ==> !w.procs[p].pc.Rechecked?
  }

  lemma BlockedProcess(w: World, p: nat, m: Move, f: nat)
    requires Sound(w) && Blocked(w, f) && Enabled(w, p, m)
    ensures !m.MoveAside? && !m.Abandon? && !m.UnlinkRelease? && !m.CheckRelease? && !m.ReadBack?
    ensures m.Recheck? ==> Look(w, LockPath) != w.procs[p].stale
    ensures HasAside(w.procs[p]) ==> w.procs[p].pc.at.Aside?
    ensures w.procs[p].holds.None?
  {
    assert LocalOk(w, p, w.procs[p]) && !Owner(w, p);
  }

  lemma BlockedPathStays(w: World, p: nat, m: Move, w': World)
    requires Enabled(w, p, m) && w' == Effect(w, p, m) && LockPath in w.dir
    requires !m.MoveAside? && !m.Abandon? && !m.UnlinkRelease? && !m.CheckRelease? && !m.ReadBack?
    requires m.Recheck? ==> Look(w, LockPath) != w.procs[p].stale
    requires HasAside(w.procs[p]) ==> w.procs[p].pc.at.Aside?
    ensures LockPath in w'.dir && w'.dir[LockPath] == w.dir[LockPath]
    ensures w'.procs[p].holds == w.procs[p].holds && !w'.procs[p].pc.Rechecked?
  {
  }

  lemma BlockedFileStays(w: World, p: nat, m: Move, f: nat, w': World)
    requires Sound(w) && Blocked(w, f) && Enabled(w, p, m) && w' == Effect(w, p, m)
    ensures f in w'.files && w'.files[f] == w.files[f]
  {
    assert LocalOk(w, p, w.procs[p]);
    assert Preparing(w.procs[p]) ==> Unpublished(w, w.procs[p].pc.file);
  }

  lemma CallKeepsBlocked(w: World, p: nat, m: Move, f: nat, w': World)
    requires Sound(w) && Blocked(w, f) && Enabled(w, p, m) && w' == Effect(w, p, m)
    ensures Blocked(w', f)
  {
    BlockedProcess(w, p, m, f);
    BlockedPathStays(w, p, m, w');
    BlockedFileStays(w, p, m, f, w');
    OthersStay(w, p, m, w');
    forall q ensures !Owner(w', q) {
      assert !Owner(w, q);
    }
  }

  lemma DeathKeepsBlocked(w: World, f: nat, pid: nat)
    requires Blocked(w, f) && w.files[f].seen.content.Whole? && w.files[f].seen.content.pid != Some(pid)
    ensures Blocked(Take(w, Die(pid)), f)
  {
    var w' := Take(w, Die(pid));
    forall q ensures !Owner(w', q) {
      assert !Owner(w, q);
    }
  }

  /** From a blocked path no calls, of however many processes, get anyone the lock before the process
      the file names has died. */
  lemma {:induction false} BlockedUntilDeath(ws: seq<World>, acts: seq<Action>, f: nat, pid: nat, i: nat)
    requires Steps(ws, acts) && Sound(ws[0]) && Blocked(ws[0], f) && i < |ws|
    requires ws[0].files[f].seen.content.pid == Some(pid)
    requires forall k :: 0 <= k < i ==> acts[k] != Die(pid)
    ensures Blocked(ws[i], f) && ws[i].files[f].seen == ws[0].files[f].seen
  {
    if i > 0 {
      BlockedUntilDeath(ws, acts, f, pid, i - 1);
      StepsKeepSound(ws, acts, i - 1);
      StepKeepsBlocked(ws[i - 1], acts[i - 1], f, pid);
    }
  }

  lemma StepKeepsBlocked(w: World, a: Action, f: nat, pid: nat)
    requires Sound(w) && Blocked(w, f) && CanTake(w, a) && w.files[f].seen.content.pid == Some(pid) && a != Die(pid)
    ensures Blocked(Take(w, a), f) && Take(w, a).files[f].seen == w.files[f].seen
  {
    match a
    case Die(other) => DeathKeepsBlocked(w, f, other);
    case Do(p, m) =>
      CallKeepsBlocked(w, p, m, f, Take(w, a));
      BlockedFileStays(w, p, m, f, Take(w, a));
  }

  /** A sequence of calls after which the process owns the lock. */
  ghost predicate Obtains(ws: seq<World>, acts: seq<Action>, w: World, p: nat) {
    Steps(ws, acts) && ws[0] == w && (forall k :: 0 <= k < |acts| ==> acts[k].Do?) && Owner(ws[|acts|], p)
  }

  /** When nobody owns the lock and nobody is past a recheck, a process at rest can get it by calls
      alone exactly when the path is attended. */
  lemma CanBeTakenExactlyWhenAttended(w: World, p: nat, tag: nat, identity: Identity)
    requires Sound(w) && NobodyOwns(w) && AtRest(w, p) && NewPayload(w, p, tag, identity)
    requires forall q :: 0 <= q < |w.procs| && q !in w.dead ==> !w.procs[q].pc.Rechecked?
    ensures (exists ws, acts :: Obtains(ws, acts, w, p)) <==> Attended(w)
  {
    if Attended(w) {
      var ws, acts := CanBeTakenAgain(w, p, tag, identity);
      assert Obtains(ws, acts, w, p);
    } else {
      var f := w.dir[LockPath];
      var pid := w.files[f].seen.content.pid.value;
      forall ws: seq<World>, acts: seq<Action> ensures !Obtains(ws, acts, w, p) {
        if Steps(ws, acts) && ws[0] == w && forall k :: 0 <= k < |acts| ==> acts[k].Do? {
          BlockedUntilDeath(ws, acts, f, pid, |acts|);
        }
      }
    }
  }
}
