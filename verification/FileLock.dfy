/** The PID lock-file protocol, one transition per file-system call, for any number of
    processes whose calls interleave freely.

    Inodes live in `files` and keep their identity for ever; `dir` maps names to inodes.
    Every call may fail, and any process may die between two of its own calls. */
module FileLock {
  import opened Basics

  /** What a reader finds in a lock file: nothing yet, or a finished payload whose pid
      may be unparsable. */
  datatype Content = Partial | Whole(pid: Option<nat>, tag: nat)

  datatype Identity = Identity(dev: nat, ino: nat, size: nat, mtime: nat)

  /** One `readLockSnapshot`: the open descriptor pins the inode, so it is one step. */
  datatype Snapshot = Snapshot(content: Content, identity: Identity)

  /** `creator` is bookkeeping for the proofs; no step reads it. */
  datatype File = File(creator: nat, seen: Snapshot)

  datatype Path = LockPath | Private(proc: nat, nonce: nat) | Aside(proc: nat, nonce: nat)

  /** Where a process stands inside `tryAcquireLockSync`, `probeLock`, `reclaimStaleLock`
      or `releaseLock`. */
  datatype Pc =
    | Idle
    | Created(file: nat)
    | Filled(file: nat)
    | Linked(file: nat, won: bool)
    | ReadingBack
    | Abandoning
    | Probed(snapshot: Snapshot)
    | Rechecked
    | MovedAside(at: Path)
    | PuttingBack(at: Path)
    | DroppingAside(at: Path)
    | Verified(at: Path)
    | Releasing

  /** `holds` is the file the process linked and has not yet tried to unlink for the last
      time; `handle` is the ownership `tryAcquireLockSync` returned; `stale` is the probe
      result that a reclaim may be called with. */
  datatype Local = Local(pc: Pc, holds: Option<nat>, handle: Option<Snapshot>, stale: Option<Snapshot>)

  /** `reclaimed` logs, in order, the file deleted by each `reclaimStaleLock` call that
      returned true. */
  datatype World = World(
    files: map<nat, File>,
    dir: map<Path, nat>,
    procs: seq<Local>,
    dead: set<nat>,
    next: nat,
    reclaimed: seq<nat>)

  datatype Move =
    | Create
    | Fill(tag: nat, identity: Identity)
    | FailFill
    | Link(ok: bool)
    | DropPrivate(ok: bool)
    | ReadBack(ok: bool)
    | Abandon(ok: bool)
    | Probe(ok: bool)
    | TestPid
    | Recheck(ok: bool)
    | MoveAside(ok: bool)
    | Verify(ok: bool)
    | PutBack(ok: bool)
    | DropAside(ok: bool)
    | DeleteAside(ok: bool)
    | CheckRelease(ok: bool)
    | UnlinkRelease(ok: bool)

  datatype Action = Do(proc: nat, move: Move) | Die(pid: nat)

  // ---- reading and writing the world ----

  function Look(w: World, path: Path): Option<Snapshot> {
    if path in w.dir && w.dir[path] in w.files then Some(w.files[w.dir[path]].seen) else None
  }

  function Put(w: World, p: nat, l: Local): World
    requires p < |w.procs|
  {
    w.(procs := w.procs[p := l])
  }

  function Unlink(w: World, path: Path): World {
    w.(dir := w.dir - {path})
  }

  function Name(w: World, path: Path, f: nat): World {
    w.(dir := w.dir[path := f])
  }

  /** A finished payload whose pid cannot be parsed, or whose process is gone. */
  predicate Stale(w: World, s: Snapshot) {
    s.content.Whole? && (s.content.pid.None? || s.content.pid.value in w.dead)
  }

  /** What `probeLock` reports of what it read: no pid to be found, one that is dead, or one that lives. */
  predicate ReportsStale(w: World, c: Content) {
    match c
    case Partial => true
    case Whole(None, _) => true
    case Whole(Some(pid), _) => pid in w.dead
  }

  function NewFile(p: nat): File {
    File(p, Snapshot(Partial, Identity(0, 0, 0, 0)))
  }

  /** A new empty inode under a private name. */
  function Allocate(w: World, p: nat): World {
    w.(files := w.files[w.next := NewFile(p)],
       dir := w.dir[Private(p, w.next) := w.next],
       next := w.next + 1)
  }

  function FillFile(w: World, p: nat, seen: Snapshot): World
    requires p < |w.procs| && w.procs[p].pc.Created? && w.procs[p].pc.file in w.files
  {
    var f := w.procs[p].pc.file;
    Put(w, p, w.procs[p].(pc := Filled(f))).(files := w.files[f := w.files[f].(seen := seen)])
  }

  function Rename(w: World, at: Path): World
    requires LockPath in w.dir
  {
    w.(dir := w.dir[at := w.dir[LockPath]] - {LockPath}, next := w.next + 1)
  }

  function Delete(w: World, at: Path): World
    requires at in w.dir
  {
    Unlink(w, at).(reclaimed := w.reclaimed + [w.dir[at]])
  }

  // ---- the steps ----

  predicate Enabled(w: World, p: nat, m: Move) {
    p < |w.procs| && p !in w.dead &&
    var l := w.procs[p];
    match m
    case Create => l.pc.Idle? && l.holds.None? && l.handle.None?
    case Fill(tag, identity) =>
      l.pc.Created? && l.pc.file in w.files &&
      forall g | g in w.files :: w.files[g].seen != Snapshot(Whole(Some(p), tag), identity)
    case FailFill => l.pc.Created?
    case Link(_) => l.pc.Filled?
    case DropPrivate(_) => l.pc.Linked?
    case ReadBack(_) => l.pc.ReadingBack?
    case Abandon(_) => l.pc.Abandoning?
    case Probe(_) => l.pc.Idle?
    case TestPid => l.pc.Probed?
    case Recheck(_) => l.pc.Idle? && l.stale.Some?
    case MoveAside(_) => l.pc.Rechecked?
    case Verify(_) => l.pc.MovedAside? && l.stale.Some?
    case PutBack(_) => l.pc.PuttingBack?
    case DropAside(_) => l.pc.DroppingAside?
    case DeleteAside(_) => l.pc.Verified?
    case CheckRelease(_) => l.pc.Idle? && l.handle.Some?
    case UnlinkRelease(_) => l.pc.Releasing?
  }

  /** The effect of one call by process `p`. A false `ok` is a failure other than the ones
      the directory state itself decides (present, absent, exists). */
  function Effect(w: World, p: nat, m: Move): World
    requires Enabled(w, p, m)
  {
    var l := w.procs[p];
    match m
    case Create => Put(Allocate(w, p), p, l.(pc := Created(w.next)))
    case Fill(tag, identity) => FillFile(w, p, Snapshot(Whole(Some(p), tag), identity))
    case FailFill => Put(w, p, l.(pc := Idle))
    case Link(ok) =>
      if ok && LockPath !in w.dir then
        Name(Put(w, p, l.(pc := Linked(l.pc.file, true), holds := Some(l.pc.file))), LockPath, l.pc.file)
      else
        Put(w, p, l.(pc := Linked(l.pc.file, false)))
    case DropPrivate(ok) =>
      var w' := Put(w, p, l.(pc := if l.pc.won then ReadingBack else Idle));
      if ok then Unlink(w', Private(p, l.pc.file)) else w'
    case ReadBack(ok) =>
      var s := Look(w, LockPath);
      Put(w, p, if ok && s.Some? then l.(pc := Idle, handle := s) else l.(pc := Abandoning))
    case Abandon(ok) =>
      var w' := Put(w, p, l.(pc := Idle, holds := None));
      if ok then Unlink(w', LockPath) else w'
    case Probe(ok) =>
      var s := if ok then Look(w, LockPath) else None;
      Put(w, p, l.(pc := if s.Some? then Probed(s.value) else Idle, stale := None))
    case TestPid =>
      Put(w, p, l.(pc := Idle, stale := if ReportsStale(w, l.pc.snapshot.content) then Some(l.pc.snapshot) else None))
    case Recheck(ok) =>
      Put(w, p, l.(pc := if ok && Look(w, LockPath) == l.stale then Rechecked else Idle))
    case MoveAside(ok) =>
      if ok && LockPath in w.dir then
        var at := Aside(p, w.next);
        Put(Rename(w, at), p, l.(pc := MovedAside(at)))
      else
        Put(w, p, l.(pc := Idle))
    case Verify(ok) =>
      Put(w, p, l.(pc := if ok && Look(w, l.pc.at) == l.stale then Verified(l.pc.at) else PuttingBack(l.pc.at)))
    case PutBack(ok) =>
      if !ok || l.pc.at !in w.dir then Put(w, p, l.(pc := Idle))
      else
        var w' := Put(w, p, l.(pc := DroppingAside(l.pc.at)));
        if LockPath in w.dir then w' else Name(w', LockPath, w.dir[l.pc.at])
    case DropAside(ok) =>
      var w' := Put(w, p, l.(pc := Idle));
      if ok then Unlink(w', l.pc.at) else w'
    case DeleteAside(ok) =>
      var w' := Put(w, p, l.(pc := Idle));
      if ok && l.pc.at in w.dir then Delete(w', l.pc.at) else w'
    case CheckRelease(ok) =>
      Put(w, p, if ok && Look(w, LockPath) == l.handle then l.(pc := Releasing)
                else l.(pc := Idle, holds := None, handle := None))
    case UnlinkRelease(ok) =>
      var w' := Put(w, p, l.(pc := Idle, holds := None, handle := None));
      if ok then Unlink(w', LockPath) else w'
  }

  predicate CanTake(w: World, a: Action) {
    a.Do? ==> Enabled(w, a.proc, a.move)
  }

  function Take(w: World, a: Action): World
    requires CanTake(w, a)
  {
    match a
    case Do(p, m) => Effect(w, p, m)
    case Die(pid) => w.(dead := w.dead + {pid})
  }

  /** Nobody is inside a call. The lock path is free or holds one finished leftover file. */
  predicate Initial(w: World) {
    && (forall p | 0 <= p < |w.procs| :: w.procs[p] == Local(Idle, None, None, None))
    && w.next == 1
    && w.reclaimed == []
    && (w.dir == map[] || w.dir == map[LockPath := 0])
    && (if w.dir == map[] then w.files == map[] else w.files.Keys == {0} && w.files[0].seen.content.Whole?)
  }

  /** `ws` are the worlds passed through, `acts` the actions between them. */
  ghost predicate Steps(ws: seq<World>, acts: seq<Action>) {
    && |ws| == |acts| + 1
    && forall i :: 0 <= i < |acts| ==> CanTake(ws[i], acts[i]) && ws[i + 1] == Take(ws[i], acts[i])
  }

  ghost predicate Run(ws: seq<World>, acts: seq<Action>) {
    Steps(ws, acts) && Initial(ws[0])
  }
}
