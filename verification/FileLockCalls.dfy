/** Calls that run without interleaving, and the runs that break mutual exclusion when the
    hypotheses of the safety theorems are dropped. */
module FileLockCalls {
  import opened Basics
  import opened FileLock
  import opened FileLockInvariant
  import opened FileLockSafety
  import opened FileLockRuns

  // ---- uncontended calls ----

  /** The calls of an acquire up to the removal of the private name. */
  function PublishCall(p: nat, tag: nat, identity: Identity): seq<Action> {
    [Do(p, Create), Do(p, Fill(tag, identity)), Do(p, Link(true)), Do(p, DropPrivate(true))]
  }

  function AcquireCall(p: nat, tag: nat, identity: Identity): seq<Action> {
    PublishCall(p, tag, identity) + [Do(p, ReadBack(true))]
  }

  function ProbeAndRecheck(p: nat): seq<Action> {
    [Do(p, Probe(true)), Do(p, TestPid), Do(p, Recheck(true))]
  }

  function MoveAndDelete(p: nat): seq<Action> {
    [Do(p, MoveAside(true)), Do(p, Verify(true)), Do(p, DeleteAside(true))]
  }

  function ReleaseCall(p: nat): seq<Action> {
    [Do(p, CheckRelease(true)), Do(p, UnlinkRelease(true))]
  }

  /** The process is between calls. */
  predicate AtRest(w: World, p: nat) {
    p < |w.procs| && p !in w.dead && w.procs[p].pc.Idle?
  }

  predicate NewPayload(w: World, p: nat, tag: nat, identity: Identity) {
    forall f | f in w.files :: w.files[f].seen != Snapshot(Whole(Some(p), tag), identity)
  }

  lemma OneStep(w: World, a: Action) returns (ws: seq<World>)
    requires CanTake(w, a)
    ensures Steps(ws, [a]) && ws[0] == w && ws[1] == Take(w, a)
  {
    ws := [w, Take(w, a)];
  }

  lemma Join(us: seq<World>, as0: seq<Action>, vs: seq<World>, as1: seq<Action>) returns (ws: seq<World>)
    requires Steps(us, as0) && Steps(vs, as1) && us[|as0|] == vs[0]
    ensures Steps(ws, as0 + as1) && ws[0] == us[0] && ws[|as0 + as1|] == vs[|as1|]
  {
    ws := us[..|as0|] + vs;
    var acts := as0 + as1;
    forall i | 0 <= i < |acts| ensures CanTake(ws[i], acts[i]) && ws[i + 1] == Take(ws[i], acts[i]) {
      if i >= |as0| {
        assert CanTake(vs[i - |as0|], as1[i - |as0|]);
      }
    }
  }

  /** On a free path an undisturbed `tryAcquireLockSync` leaves one new file there, the
      caller holding it with a handle that describes it, and every other name as it was. */
  lemma UncontendedAcquire(w: World, p: nat, tag: nat, identity: Identity) returns (ws: seq<World>)
    requires Sound(w) && AtRest(w, p) && w.procs[p].holds.None? && LockPath !in w.dir && NewPayload(w, p, tag, identity)
    ensures Steps(ws, AcquireCall(p, tag, identity)) && ws[0] == w
    ensures
      var w' := ws[5];
      && w'.dir == w.dir[LockPath := w.next]
      && w'.procs == w.procs[p := Local(Idle, Some(w.next), Look(w', LockPath), w.procs[p].stale)]
      && w'.files == w.files[w.next := File(p, Snapshot(Whole(Some(p), tag), identity))]
      && w'.dead == w.dead
  {
    assert LocalOk(w, p, w.procs[p]);
    ws := AcquireSteps(w, p, tag, identity);
  }

  /** The world once the private file of a new lock is complete. */
  function Prepared(w: World, p: nat, tag: nat, identity: Identity): World
    requires p < |w.procs|
  {
    var f := w.next;
    w.(files := w.files[f := File(p, Snapshot(Whole(Some(p), tag), identity))],
       dir := w.dir[Private(p, f) := f],
       procs := w.procs[p := w.procs[p].(pc := Filled(f))],
       next := f + 1)
  }

  lemma PrepareSteps(w: World, p: nat, tag: nat, identity: Identity) returns (w1: World)
    requires AtRest(w, p) && w.procs[p].holds.None? && w.procs[p].handle.None? && NewPayload(w, p, tag, identity)
    requires w.next !in w.files
    ensures CanTake(w, Do(p, Create)) && w1 == Take(w, Do(p, Create))
    ensures CanTake(w1, Do(p, Fill(tag, identity)))
    ensures Take(w1, Do(p, Fill(tag, identity))) == Prepared(w, p, tag, identity)
  {
    w1 := Effect(w, p, Create);
    var w2 := Effect(w1, p, Fill(tag, identity));
    assert w2.files == Prepared(w, p, tag, identity).files;
  }

  lemma LinkSteps(w: World, p: nat, f: nat) returns (w1: World, w2: World)
    requires p < |w.procs| && p !in w.dead && w.procs[p].pc == Filled(f) && LockPath !in w.dir && f in w.files
    ensures CanTake(w, Do(p, Link(true))) && w1 == Take(w, Do(p, Link(true)))
    ensures CanTake(w1, Do(p, DropPrivate(true))) && w2 == Take(w1, Do(p, DropPrivate(true)))
    ensures w2.dir == w.dir[LockPath := f] - {Private(p, f)} && w2.files == w.files && w2.dead == w.dead
    ensures w2.procs == w.procs[p := w.procs[p].(pc := ReadingBack, holds := Some(f))]
  {
    w1 := Effect(w, p, Link(true));
    w2 := Effect(w1, p, DropPrivate(true));
  }

  lemma FourSteps(ws: seq<World>, acts: seq<Action>)
    requires |acts| == 4 && |ws| == 5
    requires CanTake(ws[0], acts[0]) && ws[1] == Take(ws[0], acts[0])
    requires CanTake(ws[1], acts[1]) && ws[2] == Take(ws[1], acts[1])
    requires CanTake(ws[2], acts[2]) && ws[3] == Take(ws[2], acts[2])
    requires CanTake(ws[3], acts[3]) && ws[4] == Take(ws[3], acts[3])
    ensures Steps(ws, acts)
  {
  }

  lemma PublishSteps(w: World, p: nat, tag: nat, identity: Identity) returns (ws: seq<World>)
    requires AtRest(w, p) && w.procs[p].holds.None? && w.procs[p].handle.None? && NewPayload(w, p, tag, identity)
    requires LockPath !in w.dir && w.next !in w.files && Private(p, w.next) !in w.dir
    ensures Steps(ws, PublishCall(p, tag, identity)) && ws[0] == w
    ensures
      var w' := ws[4];
      && w'.dir == w.dir[LockPath := w.next] && w'.dead == w.dead
      && w'.procs == w.procs[p := w.procs[p].(pc := ReadingBack, holds := Some(w.next))]
      && w'.files == w.files[w.next := File(p, Snapshot(Whole(Some(p), tag), identity))]
  {
    var w1 := PrepareSteps(w, p, tag, identity);
    var w2 := Prepared(w, p, tag, identity);
    var w3, w4 := LinkSteps(w2, p, w.next);
    assert w4.dir == w.dir[LockPath := w.next];
    ws := [w, w1, w2, w3, w4];
    FourSteps(ws, PublishCall(p, tag, identity));
  }

  lemma AcquireSteps(w: World, p: nat, tag: nat, identity: Identity) returns (ws: seq<World>)
    requires AtRest(w, p) && w.procs[p].holds.None? && w.procs[p].handle.None? && NewPayload(w, p, tag, identity)
    requires LockPath !in w.dir && w.next !in w.files && Private(p, w.next) !in w.dir
    ensures Steps(ws, AcquireCall(p, tag, identity)) && ws[0] == w
    ensures
      var w' := ws[5];
      && w'.dir == w.dir[LockPath := w.next]
      && w'.procs == w.procs[p := Local(Idle, Some(w.next), Look(w', LockPath), w.procs[p].stale)]
      && w'.files == w.files[w.next := File(p, Snapshot(Whole(Some(p), tag), identity))]
      && w'.dead == w.dead
  {
    var us := PublishSteps(w, p, tag, identity);
    var vs := OneStep(us[4], Do(p, ReadBack(true)));
    ws := Join(us, PublishCall(p, tag, identity), vs, [Do(p, ReadBack(true))]);
  }

  /** When the published file cannot be read back, the acquire gives it up and leaves every name as it was. */
  lemma FailedReadBackGivesUp(w: World, p: nat, tag: nat, identity: Identity) returns (ws: seq<World>)
    requires Sound(w) && AtRest(w, p) && w.procs[p].holds.None? && LockPath !in w.dir && NewPayload(w, p, tag, identity)
    ensures Steps(ws, PublishCall(p, tag, identity) + [Do(p, ReadBack(false)), Do(p, Abandon(true))]) && ws[0] == w
    ensures ws[6].dir == w.dir && ws[6].procs == w.procs && ws[6].dead == w.dead
  {
    assert LocalOk(w, p, w.procs[p]);
    var us := PublishSteps(w, p, tag, identity);
    var w5 := Effect(us[4], p, ReadBack(false));
    var w6 := Effect(w5, p, Abandon(true));
    var last := [Do(p, ReadBack(false)), Do(p, Abandon(true))];
    assert w6.dir == w.dir && w6.procs == w.procs;
    assert Steps([us[4], w5, w6], last);
    ws := Join(us, PublishCall(p, tag, identity), [us[4], w5, w6], last);
  }

  lemma ProbeFindsStale(w: World, p: nat) returns (ws: seq<World>)
    requires Sound(w) && AtRest(w, p) && LockPath in w.dir && Stale(w, w.files[w.dir[LockPath]].seen)
    ensures Steps(ws, ProbeAndRecheck(p)) && ws[0] == w
    ensures ws[3] == Put(w, p, w.procs[p].(pc := Rechecked, stale := Look(w, LockPath)))
  {
    var w1 := Effect(w, p, Probe(true));
    var w2 := Effect(w1, p, TestPid);
    ws := [w, w1, w2, Effect(w2, p, Recheck(true))];
  }

  lemma MoveSteps(w: World, p: nat) returns (ws: seq<World>)
    requires p < |w.procs| && p !in w.dead && w.procs[p].pc.Rechecked? && Aside(p, w.next) !in w.dir
    requires LockPath in w.dir && w.dir[LockPath] in w.files && w.procs[p].stale == Some(w.files[w.dir[LockPath]].seen)
    ensures Steps(ws, MoveAndDelete(p)) && ws[0] == w
    ensures
      var w' := ws[3];
      && w'.dir == w.dir - {LockPath} && w'.files == w.files && w'.dead == w.dead
      && w'.reclaimed == w.reclaimed + [w.dir[LockPath]]
      && w'.procs == w.procs[p := w.procs[p].(pc := Idle)]
  {
    var w1 := Effect(w, p, MoveAside(true));
    var w2 := Effect(w1, p, Verify(true));
    var w3 := Effect(w2, p, DeleteAside(true));
    assert w3.dir == w.dir - {LockPath};
    ws := [w, w1, w2, w3];
  }

  /** On a lock that names no pid or a dead one, an undisturbed probe and `reclaimStaleLock` free the path. */
  lemma UncontendedReclaim(w: World, p: nat) returns (ws: seq<World>)
    requires Sound(w) && AtRest(w, p) && LockPath in w.dir
    requires var c := w.files[w.dir[LockPath]].seen.content; c.pid == None || c.pid.value in w.dead
    ensures Steps(ws, ProbeAndRecheck(p) + MoveAndDelete(p)) && ws[0] == w
    ensures
      var w' := ws[6];
      && w'.dir == w.dir - {LockPath}
      && w'.reclaimed == w.reclaimed + [w.dir[LockPath]]
      && w'.procs == w.procs[p := w.procs[p].(stale := Look(w, LockPath))]
      && w'.dead == w.dead && w'.files == w.files
  {
    var us := ProbeFindsStale(w, p);
    assert Aside(p, w.next) !in w.dir;
    var vs := MoveSteps(us[3], p);
    ws := Join(us, ProbeAndRecheck(p), vs, MoveAndDelete(p));
  }

  /** An undisturbed probe lets the process reclaim exactly the files that name no pid or a dead one. */
  lemma ProbeDecides(w: World, p: nat)
    requires Sound(w) && AtRest(w, p) && LockPath in w.dir
    ensures CanTake(w, Do(p, Probe(true))) && CanTake(Take(w, Do(p, Probe(true))), Do(p, TestPid))
    ensures
      var after, c := Take(Take(w, Do(p, Probe(true))), Do(p, TestPid)), w.files[w.dir[LockPath]].seen.content;
      CanTake(after, Do(p, Recheck(true))) <==> c.Whole? && (c.pid == None || c.pid.value in w.dead)
  {
    var w1 := Effect(w, p, Probe(true));
    assert w1.procs[p].pc == Probed(w.files[w.dir[LockPath]].seen);
  }

  /** Acquire then release: the directory is what it was and nothing is held. */
  lemma AcquireThenRelease(w: World, p: nat, tag: nat, identity: Identity) returns (ws: seq<World>)
    requires Sound(w) && AtRest(w, p) && w.procs[p].holds.None? && LockPath !in w.dir && NewPayload(w, p, tag, identity)
    ensures Steps(ws, AcquireCall(p, tag, identity) + ReleaseCall(p)) && ws[0] == w
    ensures ws[7].dir == w.dir && ws[7].procs == w.procs && ws[7].dead == w.dead
  {
    var us := UncontendedAcquire(w, p, tag, identity);
    var w1 := us[5];
    var w2 := Effect(w1, p, CheckRelease(true));
    var w3 := Effect(w2, p, UnlinkRelease(true));
    assert LocalOk(w, p, w.procs[p]);
    ws := Join(us, AcquireCall(p, tag, identity), [w1, w2, w3], ReleaseCall(p));
  }

  /** A leftover lock whose payload has no pid, and `n` idle processes. */
  function Nameless(n: nat): World {
    World(map[0 := File(9, Snapshot(Whole(None, 0), Identity(0, 0, 0, 0)))], map[LockPath := 0],
          seq(n, _ => Local(Idle, None, None, None)), {}, 1, [])
  }

  /** Such a lock is reclaimed although nobody has died. */
  lemma NamelessIsReclaimed(n: nat) returns (ws: seq<World>, acts: seq<Action>)
    requires n > 0
    ensures Run(ws, acts) && ws[0] == Nameless(n) && AllSucceed(acts)
    ensures ws[|acts|].dir == map[] && ws[|acts|].dead == {} && ws[|acts|].reclaimed == [0]
  {
    var w := Nameless(n);
    assert LockPath in w.dir && w.files.Keys == {0} && w.files[0].seen.content.Whole?;
    assert forall p :: 0 <= p < |w.procs| ==> w.procs[p] == Local(Idle, None, None, None);
    InitialIsSound(w);
    ws := UncontendedReclaim(w, 0);
    acts := ProbeAndRecheck(0) + MoveAndDelete(0);
    AllSucceedTogether(ProbeAndRecheck(0), MoveAndDelete(0));
  }

  // ---- why the hypotheses are needed ----

  const ANY_IDENTITY := Identity(0, 0, 0, 0)

  /** A leftover of the dead process 9, and `n` idle processes. */
  function Leftover(n: nat): World {
    World(map[0 := File(9, Snapshot(Whole(Some(9), 0), ANY_IDENTITY))], map[LockPath := 0],
          seq(n, _ => Local(Idle, None, None, None)), {9}, 1, [])
  }

  lemma LeftoverIsInitial(n: nat)
    ensures Initial(Leftover(n)) && Sound(Leftover(n))
  {
    var w := Leftover(n);
    assert LockPath in w.dir && w.files.Keys == {0} && w.files[0].seen.content.Whole?;
    assert forall p :: 0 <= p < |w.procs| ==> w.procs[p] == Local(Idle, None, None, None);
    InitialIsSound(w);
  }

  /** No process dies and no call fails. */
  predicate AllSucceed(acts: seq<Action>) {
    forall i :: 0 <= i < |acts| ==> Succeeds(acts[i])
  }

  predicate Succeeds(a: Action) {
    a.Do? && (a.move.Create? || a.move.Fill? || a.move.TestPid? || (!a.move.FailFill? && a.move.ok))
  }

  lemma AllSucceedTogether(as0: seq<Action>, as1: seq<Action>)
    requires AllSucceed(as0) && AllSucceed(as1)
    ensures AllSucceed(as0 + as1)
  {
  }

  /** A run goes on with further calls that succeed. */
  lemma RunOn(us: seq<World>, as0: seq<Action>, vs: seq<World>, as1: seq<Action>)
    returns (ws: seq<World>, acts: seq<Action>)
    requires Run(us, as0) && Steps(vs, as1) && us[|as0|] == vs[0] && AllSucceed(as0) && AllSucceed(as1)
    ensures Run(ws, acts) && ws[0] == us[0] && acts == as0 + as1 && ws[|acts|] == vs[|as1|] && AllSucceed(acts)
  {
    ws := Join(us, as0, vs, as1);
    acts := as0 + as1;
    AllSucceedTogether(as0, as1);
  }

  /** Process 1 stops after its recheck; meanwhile process 0 reclaims the leftover. */
  lemma LeftoverIsReclaimed(n: nat) returns (ws: seq<World>, acts: seq<Action>)
    requires 2 <= n <= 9
    ensures Run(ws, acts) && AllSucceed(acts) && ws[0] == Leftover(n)
    ensures
      var w := ws[|acts|];
      && w.dead == {9} && |w.procs| == n && w.dir == map[] && w.files == Leftover(n).files
      && AtRest(w, 0) && w.procs[0].holds.None?
      && w.procs[1].pc.Rechecked? && w.procs[1].holds.None? && w.procs[1].handle.None?
      && (n > 2 ==> w.procs[2] == Local(Idle, None, None, None))
  {
    var w := Leftover(n);
    LeftoverIsInitial(n);
    var us := ProbeFindsStale(w, 1);
    RunIsSound(us, ProbeAndRecheck(1), 3);
    var vs := UncontendedReclaim(us[3], 0);
    acts := ProbeAndRecheck(1) + (ProbeAndRecheck(0) + MoveAndDelete(0));
    AllSucceedTogether(ProbeAndRecheck(0), MoveAndDelete(0));
    AllSucceedTogether(ProbeAndRecheck(1), ProbeAndRecheck(0) + MoveAndDelete(0));
    ws := Join(us, ProbeAndRecheck(1), vs, ProbeAndRecheck(0) + MoveAndDelete(0));
  }

  /** Process 0 then acquires, and process 1 moves that live lock aside. */
  lemma LiveLockIsDisplaced(n: nat) returns (ws: seq<World>, acts: seq<Action>)
    requires 2 <= n <= 9
    ensures Run(ws, acts) && AllSucceed(acts) && ws[0] == Leftover(n)
    ensures
      var w := ws[|acts|];
      && w.dead == {9} && |w.procs| == n && Owner(w, 0) && LockPath !in w.dir
      && w.procs[1].pc.MovedAside? && w.procs[1].holds.None? && w.procs[1].handle.None?
      && AtRest(w, 0) && w.procs[0].handle.Some?
      && w.procs[1].pc.at in w.dir && Some(w.dir[w.procs[1].pc.at]) == w.procs[0].holds
      && (n > 2 ==> w.procs[2] == Local(Idle, None, None, None))
      && (forall f :: f in w.files ==> w.files[f].seen.content in {Whole(Some(9), 0), Whole(Some(0), 1)})
  {
    ws, acts := LeftoverIsReclaimed(n);
    RunIsSound(ws, acts, |acts|);
    var us := UncontendedAcquire(ws[|acts|], 0, 1, ANY_IDENTITY);
    var a := Do(1, MoveAside(true));
    var vs := OneStep(us[5], a);
    var xs := Join(us, AcquireCall(0, 1, ANY_IDENTITY), vs, [a]);
    var more := AcquireCall(0, 1, ANY_IDENTITY) + [a];
    ws, acts := RunOn(ws, acts, xs, more);
  }

  /** With three processes and no failing call, two live processes can own the lock at once:
      the third one links while the first one's file sits in the second one's quarantine. */
  lemma ThreeProcessesCanBothOwn() returns (ws: seq<World>, acts: seq<Action>)
    ensures Run(ws, acts) && AllSucceed(acts) && |ws[0].procs| == 3
    ensures Owner(ws[|acts|], 0) && Owner(ws[|acts|], 2)
  {
    ws, acts := LiveLockIsDisplaced(3);
    RunIsSound(ws, acts, |acts|);
    var us := UncontendedAcquire(ws[|acts|], 2, 2, ANY_IDENTITY);
    var more := AcquireCall(2, 2, ANY_IDENTITY);
    ws, acts := RunOn(ws, acts, us, more);
  }

  lemma GiveUp(w: World, p: nat) returns (ws: seq<World>)
    requires p < |w.procs| && p !in w.dead && w.procs[p].pc.MovedAside? && w.procs[p].stale.Some?
    ensures Steps(ws, [Do(p, Verify(false)), Do(p, PutBack(false))]) && ws[0] == w
    ensures ws[2] == Put(w, p, w.procs[p].(pc := Idle))
  {
    var w1 := Effect(w, p, Verify(false));
    ws := [w, w1, Effect(w1, p, PutBack(false))];
  }

  /** With two processes it takes a put-back that fails for another reason than a taken path. */
  lemma FailedPutBackLetsTwoOwn() returns (ws: seq<World>, acts: seq<Action>)
    ensures Run(ws, acts) && |ws[0].procs| == 2
    ensures Owner(ws[|acts|], 0) && Owner(ws[|acts|], 1)
  {
    ws, acts := LiveLockIsDisplaced(2);
    RunIsSound(ws, acts, |acts|);
    var w := ws[|acts|];
    assert LocalOk(w, 1, w.procs[1]) && LocalOk(w, 0, w.procs[0]);
    var giveUp := [Do(1, Verify(false)), Do(1, PutBack(false))];
    var vs := GiveUp(w, 1);
    ws := Join(ws, acts, vs, giveUp);
    acts := acts + giveUp;
    RunIsSound(ws, acts, |acts|);
    var us := UncontendedAcquire(vs[2], 1, 2, ANY_IDENTITY);
    ws := Join(ws, acts, us, AcquireCall(1, 2, ANY_IDENTITY));
    acts := acts + AcquireCall(1, 2, ANY_IDENTITY);
  }
}
