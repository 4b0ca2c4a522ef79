/** `writeFileAtomic`, call by call: short writes, failing calls, and a power loss after any
    of them. */
module AtomicWrite {
  import opened Basics

  type Bytes = seq<bv8>

  type Directory = map<string, nat>

  /** What a call reports: done, not supported by this file system, or any other error. */
  datatype Call = Done | Unsupported | Failed

  /** `dir` is what running processes see. After a power loss the disk holds any one of
      `versions`, the directories since it was last synced, and of the inodes outside
      `synced` any bytes at all. */
  datatype State = State(files: map<nat, Bytes>, dir: Directory, synced: set<nat>, versions: seq<Directory>)

  function Content(s: State, dir: Directory, name: string): Option<Bytes> {
    if name in dir && dir[name] in s.files then Some(s.files[dir[name]]) else None
  }

  /** After a power loss now, `name` holds one of `allowed`, whole. */
  ghost predicate SurvivesWith(s: State, name: string, allowed: set<Option<Bytes>>) {
    forall d :: d in s.versions ==>
      && (name in d ==> d[name] in s.files && d[name] in s.synced)
      && Content(s, d, name) in allowed
  }

  /** Readers and a power loss both find one of `allowed`. */
  ghost predicate AlwaysOneOf(s: State, name: string, allowed: set<Option<Bytes>>) {
    && Content(s, s.dir, name) in allowed
    && SurvivesWith(s, name, allowed)
  }

  /** Every name leads to an inode, and the disk holds the present directory. */
  ghost predicate Consistent(s: State) {
    && s.dir in s.versions
    && (forall d, name :: d in s.versions && name in d ==> d[name] in s.files)
    && s.synced <= s.files.Keys
  }

  /** The file system, changed in place; `history` records every state it passes through. Only a
      `faulty` one fails a call for another reason than the state itself, or writes nothing; a `complete` one
      supports every call. */
  class Disk {
    const faulty: bool
    const complete: bool
    var files: map<nat, Bytes>
    var dir: Directory
    ghost var synced: set<nat>
    ghost var versions: seq<Directory>
    ghost var history: seq<State>

    constructor (s: State, faulty: bool, complete: bool)
      requires Consistent(s)
      ensures Valid() && Now() == s && history == [s] && this.faulty == faulty && this.complete == complete
    {
      this.faulty, this.complete := faulty, complete;
      files, dir, synced, versions := s.files, s.dir, s.synced, s.versions;
      history := [s];
    }

    ghost function Now(): State
      reads this
    {
      State(files, dir, synced, versions)
    }

    ghost predicate Valid()
      reads this
    {
      Consistent(Now()) && history != [] && history[|history| - 1] == Now()
    }

    /** How a call on a file that is there ends. */
    method Succeeds() returns (ok: bool)
      ensures !faulty ==> ok
    {
      ok := *;
      ok := ok || !faulty;
    }

    /** The same for a call that a file system need not support. */
    method Reports() returns (r: Call)
      ensures (!faulty ==> !r.Failed?) && (complete ==> !r.Unsupported?)
    {
      r := *;
      if (r.Failed? && !faulty) || (r.Unsupported? && complete) { r := Done; }
    }

    /** `openSync(name, "wx")`: fails when the name is taken. */
    method CreateExclusive(name: string) returns (fd: Option<nat>)
      requires Valid()
      modifies this
      ensures Valid()
      ensures fd.None? ==> Now() == old(Now()) && history == old(history)
      ensures !faulty && name !in old(dir) ==> fd.Some?
      ensures fd.Some? ==>
        && fd.value !in old(files) && name !in old(dir)
        && Now() == State(old(files)[fd.value := []], old(dir)[name := fd.value], old(synced), old(versions) + [dir])
        && history == old(history) + [Now()]
    {
      var ok := Succeeds();
      if !ok || name in dir { return None; }
      var ino := NewInode(files.Keys);
      files, dir := files[ino := []], dir[name := ino];
      versions := versions + [dir];
      history := history + [Now()];
      fd := Some(ino);
    }

    /** Writes some prefix of `bytes`. */
    method Write(fd: nat, bytes: Bytes) returns (written: Option<nat>)
      requires Valid() && fd in files
      modifies this
      ensures Valid()
      ensures written.None? ==> Now() == old(Now()) && history == old(history)
      ensures !faulty ==> written.Some? && (bytes != [] ==> written.value > 0)
      ensures written.Some? ==>
        && written.value <= |bytes|
        && Now() == State(old(files)[fd := old(files)[fd] + bytes[..written.value]], old(dir), old(synced) - {fd},
                          old(versions))
        && history == old(history) + [Now()]
    {
      var ok := Succeeds();
      if !ok { return None; }
      var n: nat :| n <= |bytes| && (!faulty && bytes != [] ==> n > 0);
      files := files[fd := files[fd] + bytes[..n]];
      synced := synced - {fd};
      history := history + [Now()];
      written := Some(n);
    }

    method SyncData(fd: nat) returns (ok: bool)
      requires Valid() && fd in files
      modifies this
      ensures Valid()
      ensures !faulty ==> ok
      ensures Now() == if ok then old(Now()).(synced := old(synced) + {fd}) else old(Now())
      ensures history == if ok then old(history) + [Now()] else old(history)
    {
      ok := Succeeds();
      if ok {
        synced := synced + {fd};
        history := history + [Now()];
      }
    }

    method Rename(from: string, to: string) returns (ok: bool)
      requires Valid() && from in dir && from != to
      modifies this
      ensures Valid() && (!faulty ==> ok)
      ensures !ok ==> Now() == old(Now()) && history == old(history)
      ensures ok ==>
        && Now() == State(old(files), old(dir)[to := old(dir)[from]] - {from}, old(synced), old(versions) + [dir])
        && history == old(history) + [Now()]
    {
      ok := Succeeds();
      if ok {
        dir := dir[to := dir[from]] - {from};
        versions := versions + [dir];
        history := history + [Now()];
      }
    }

    method Unlink(name: string) returns (ok: bool)
      requires Valid()
      modifies this
      ensures Valid() && (!faulty ==> ok)
      ensures !ok ==> Now() == old(Now()) && history == old(history)
      ensures ok ==>
        && Now() == State(old(files), old(dir) - {name}, old(synced), old(versions) + [dir])
        && history == old(history) + [Now()]
    {
      ok := Succeeds();
      if ok {
        dir := dir - {name};
        versions := versions + [dir];
        history := history + [Now()];
      }
    }

    /** `fsyncSync` on the directory: earlier versions can no longer come back. */
    method SyncDirectory() returns (r: Call)
      requires Valid()
      modifies this
      ensures Valid()
      ensures (!faulty ==> !r.Failed?) && (complete ==> !r.Unsupported?)
      ensures Now() == if r.Done? then old(Now()).(versions := [old(dir)]) else old(Now())
      ensures history == if r.Done? then old(history) + [Now()] else old(history)
    {
      r := Reports();
      if r.Done? {
        versions := [dir];
        history := history + [Now()];
      }
    }
  }

  method NewInode(used: set<nat>) returns (ino: nat)
    ensures ino !in used
  {
    ino := 0;
    var left := used;
    while ino in used
      invariant forall n :: 0 <= n < ino ==> n in used
      invariant left == set n | n in used && n >= ino
      decreases left
    {
      left := left - {ino};
      ino := ino + 1;
    }
  }

  // ---- what each step means for the target ----

  /** No directory the disk may hold leads from `name` to the inode being written. */
  ghost predicate Apart(s: State, name: string, fd: nat) {
    forall d :: d in s.versions && name in d ==> d[name] != fd
  }

  /** The states since `from` all keep `name` at one of `allowed`. */
  ghost predicate KeptSince(history: seq<State>, from: nat, name: string, allowed: set<Option<Bytes>>) {
    from <= |history| && forall k :: from <= k < |history| ==> AlwaysOneOf(history[k], name, allowed)
  }

  /** Other names lead where they led, to the same bytes. */
  ghost predicate OthersKept(s: State, s': State, name: string, tmp: string) {
    && (forall n :: n != name && n != tmp ==> (n in s.dir <==> n in s'.dir) && (n in s.dir ==> s.dir[n] == s'.dir[n]))
    && (forall f :: f in s.files ==> f in s'.files && s.files[f] == s'.files[f])
  }

  /** Bytes go to an inode the target does not lead to. */
  lemma WritingApartKeeps(s: State, s': State, name: string, fd: nat, allowed: set<Option<Bytes>>)
    requires Consistent(s) && AlwaysOneOf(s, name, allowed) && Apart(s, name, fd)
    requires s'.dir == s.dir && s'.versions == s.versions
    requires forall f :: f in s.files && f != fd ==> f in s'.files && s'.files[f] == s.files[f]
    requires forall f :: f in s.synced && f != fd ==> f in s'.synced
    ensures AlwaysOneOf(s', name, allowed) && Apart(s', name, fd)
  {
    forall d | d in s.versions ensures Content(s', d, name) == Content(s, d, name) {}
  }

  // ---- the code ----

  /** How a call ended. `renamed`: the new content took over; `durable`: the directory was
      synced; `leftover`: the private file could not be removed. */
  datatype Result = Result(thrown: bool, renamed: bool, durable: bool, leftover: bool)

  /** Writes all of `data` to the private inode, in as many calls as it takes. */
  method WriteAll(disk: Disk, fd: nat, data: Bytes, ghost target: string, ghost allowed: set<Option<Bytes>>)
    returns (ok: bool)
    requires disk.Valid() && fd in disk.files && disk.files[fd] == []
    requires AlwaysOneOf(disk.Now(), target, allowed) && Apart(disk.Now(), target, fd)
    modifies disk
    ensures disk.Valid() && old(disk.history) <= disk.history
    ensures KeptSince(disk.history, |old(disk.history)|, target, allowed)
    ensures AlwaysOneOf(disk.Now(), target, allowed) && Apart(disk.Now(), target, fd)
    ensures fd in disk.files && disk.dir == old(disk.dir) && disk.files == old(disk.files)[fd := disk.files[fd]]
    ensures ok ==> disk.files[fd] == data
    ensures !disk.faulty ==> ok
  {
    var offset := 0;
    while offset < |data|
      invariant disk.Valid() && fd in disk.files && old(disk.history) <= disk.history
      invariant 0 <= offset <= |data| && disk.files[fd] == data[..offset]
      invariant KeptSince(disk.history, |old(disk.history)|, target, allowed)
      invariant AlwaysOneOf(disk.Now(), target, allowed) && Apart(disk.Now(), target, fd)
      invariant disk.dir == old(disk.dir) && disk.files == old(disk.files)[fd := disk.files[fd]]
      decreases |data| - offset
    {
      ghost var before := disk.Now();
      var written := disk.Write(fd, data[offset..]);
      if written.None? { return false; }
      WritingApartKeeps(before, disk.Now(), target, fd, allowed);
      if written.value == 0 { return false; }
      offset := offset + written.value;
    }
    ok := true;
  }

  /** Writes, syncs and closes the private inode. */
  method Fill(disk: Disk, fd: nat, data: Bytes, ghost target: string, ghost allowed: set<Option<Bytes>>)
    returns (ok: bool)
    requires disk.Valid() && fd in disk.files && disk.files[fd] == []
    requires AlwaysOneOf(disk.Now(), target, allowed) && Apart(disk.Now(), target, fd)
    modifies disk
    ensures disk.Valid() && old(disk.history) <= disk.history
    ensures KeptSince(disk.history, |old(disk.history)|, target, allowed)
    ensures AlwaysOneOf(disk.Now(), target, allowed)
    ensures fd in disk.files && disk.dir == old(disk.dir) && disk.files == old(disk.files)[fd := disk.files[fd]]
    ensures ok ==> disk.files[fd] == data && fd in disk.synced
    ensures !disk.faulty ==> ok
  {
    ok := WriteAll(disk, fd, data, target, allowed);
    if !ok { return false; }
    ghost var written := disk.Now();
    ok := disk.SyncData(fd);
    WritingApartKeeps(written, disk.Now(), target, fd, allowed);
    var closed := disk.Succeeds();
    ok := ok && closed;
  }

  /** A new inode no directory leads to from the target. */
  method CreatePrivate(disk: Disk, tmp: string, ghost target: string, ghost allowed: set<Option<Bytes>>)
    returns (fd: Option<nat>)
    requires disk.Valid() && tmp != target && AlwaysOneOf(disk.Now(), target, allowed)
    modifies disk
    ensures disk.Valid() && old(disk.history) <= disk.history
    ensures KeptSince(disk.history, |old(disk.history)|, target, allowed)
    ensures AlwaysOneOf(disk.Now(), target, allowed)
    ensures fd.None? ==> disk.Now() == old(disk.Now())
    ensures !disk.faulty && tmp !in old(disk.dir) ==> fd.Some?
    ensures fd.Some? ==> fd.value !in old(disk.files) && tmp !in old(disk.dir) && Apart(disk.Now(), target, fd.value)
    ensures fd.Some? ==> disk.files == old(disk.files)[fd.value := []] && disk.dir == old(disk.dir)[tmp := fd.value]
  {
    ghost var s0 := disk.Now();
    fd := disk.CreateExclusive(tmp);
    assert fd.Some? ==> Apart(s0, target, fd.value);
  }

  /** The private file under its name, written and synced: nothing the target shows changes. */
  method Prepare(disk: Disk, tmp: string, data: Bytes, windows: bool, ghost target: string,
                 ghost allowed: set<Option<Bytes>>)
    returns (ok: bool, fd: Option<nat>)
    requires disk.Valid() && tmp != target && AlwaysOneOf(disk.Now(), target, allowed)
    modifies disk
    ensures disk.Valid() && old(disk.history) <= disk.history
    ensures KeptSince(disk.history, |old(disk.history)|, target, allowed)
    ensures AlwaysOneOf(disk.Now(), target, allowed)
    ensures OthersKept(old(disk.Now()), disk.Now(), tmp, tmp)
    ensures Content(disk.Now(), disk.dir, target) == Content(old(disk.Now()), old(disk.dir), target)
    ensures fd.None? ==> !ok && disk.dir == old(disk.dir)
    ensures fd.Some? ==> tmp in disk.dir && disk.dir[tmp] == fd.value && fd.value in disk.files
    ensures ok ==> fd.Some? && disk.files[fd.value] == data && fd.value in disk.synced
    ensures tmp in old(disk.dir) ==> fd.None?
    ensures !disk.faulty && tmp !in old(disk.dir) ==> ok
  {
    fd := CreatePrivate(disk, tmp, target, allowed);
    if fd.None? { return false, None; }
    if !windows {
      var chmod := disk.Reports();
      if chmod.Failed? { return false, fd; }
    }
    ok := Fill(disk, fd.value, data, target, allowed);
  }

  /** Removing the private name after a failure; an error here never hides the first one. */
  method CleanUp(disk: Disk, tmp: string, ghost target: string, ghost allowed: set<Option<Bytes>>)
    returns (leftover: bool)
    requires disk.Valid() && tmp != target && AlwaysOneOf(disk.Now(), target, allowed)
    modifies disk
    ensures disk.Valid() && old(disk.history) <= disk.history
    ensures KeptSince(disk.history, |old(disk.history)|, target, allowed)
    ensures Content(disk.Now(), disk.dir, target) == Content(old(disk.Now()), old(disk.dir), target)
    ensures OthersKept(old(disk.Now()), disk.Now(), tmp, tmp)
    ensures tmp in disk.dir ==> leftover
    ensures !disk.faulty ==> !leftover
  {
    var ok := disk.Unlink(tmp);
    leftover := !ok;
  }

  /** The rename, which shows the new content, and the sync of the directory after it. */
  method Publish(disk: Disk, tmp: string, fd: nat, data: Bytes, windows: bool, target: string,
                 ghost allowed: set<Option<Bytes>>)
    returns (renamed: bool, thrown: bool, durable: bool)
    requires disk.Valid() && tmp != target && AlwaysOneOf(disk.Now(), target, allowed)
    requires tmp in disk.dir && disk.dir[tmp] == fd && fd in disk.files && fd in disk.synced && disk.files[fd] == data
    modifies disk
    ensures disk.Valid() && old(disk.history) <= disk.history
    ensures KeptSince(disk.history, |old(disk.history)|, target, allowed + {Some(data)})
    ensures !disk.faulty ==> renamed && !thrown
    ensures !disk.faulty && disk.complete && !windows ==> durable
    ensures !renamed ==> thrown && !durable && disk.Now() == old(disk.Now()) && disk.history == old(disk.history)
    ensures renamed ==> Content(disk.Now(), disk.dir, target) == Some(data) && tmp !in disk.dir
    ensures OthersKept(old(disk.Now()), disk.Now(), target, tmp)
    ensures durable ==> AlwaysOneOf(disk.Now(), target, {Some(data)})
  {
    renamed := disk.Rename(tmp, target);
    if !renamed { return false, true, false; }
    thrown, durable := SyncParent(disk, windows, target, allowed + {Some(data)});
  }

  /** After the rename: make the directory entry durable where the platform can. */
  method SyncParent(disk: Disk, windows: bool, ghost target: string, ghost allowed: set<Option<Bytes>>)
    returns (thrown: bool, durable: bool)
    requires disk.Valid() && AlwaysOneOf(disk.Now(), target, allowed)
    modifies disk
    ensures disk.Valid() && old(disk.history) <= disk.history
    ensures KeptSince(disk.history, |old(disk.history)|, target, allowed)
    ensures disk.dir == old(disk.dir) && disk.files == old(disk.files) && disk.synced == old(disk.synced)
    ensures !disk.faulty ==> !thrown
    ensures !disk.faulty && disk.complete && !windows ==> durable
    ensures durable ==> disk.versions == [disk.dir]
  {
    if windows { return false, false; }
    var open := disk.Reports();
    if !open.Done? { return open.Failed?, false; }
    var sync := disk.SyncDirectory();
    var closed := disk.Succeeds();
    return sync.Failed? || !closed, sync.Done?;
  }

  /** Writes `data` to `target` through a private file next to it. Whatever fails, and
      whenever the power goes, the target holds one of its earlier contents or `data`, whole. */
  method WriteFileAtomic(disk: Disk, target: string, data: Bytes, nonce: string, windows: bool,
                         ghost allowed: set<Option<Bytes>>)
    returns (r: Result)
    requires disk.Valid() && AlwaysOneOf(disk.Now(), target, allowed)
    modifies disk
    ensures disk.Valid() && old(disk.history) <= disk.history
    ensures KeptSince(disk.history, |old(disk.history)|, target, allowed + {Some(data)})
    ensures !r.renamed ==> r.thrown && KeptSince(disk.history, |old(disk.history)|, target, allowed)
    ensures Content(disk.Now(), disk.dir, target) ==
      if r.renamed then Some(data) else Content(old(disk.Now()), old(disk.dir), target)
    ensures r.durable ==> r.renamed && AlwaysOneOf(disk.Now(), target, {Some(data)})
    ensures target + ".tmp." + nonce in old(disk.dir) ==> !r.renamed
    ensures !disk.faulty && target + ".tmp." + nonce !in old(disk.dir) ==> r.renamed && !r.thrown
    ensures !disk.faulty && disk.complete && !windows && target + ".tmp." + nonce !in old(disk.dir) ==> r.durable
    ensures var tmp := target + ".tmp." + nonce;
      && OthersKept(old(disk.Now()), disk.Now(), target, tmp)
      && (tmp in disk.dir && !r.leftover ==> tmp in old(disk.dir) && r.thrown)
  {
    var tmp := target + ".tmp." + nonce;
    assert |tmp| > |target|;
    var ok, fd := Prepare(disk, tmp, data, windows, target, allowed);
    if ok {
      var renamed, thrown, durable := Publish(disk, tmp, fd.value, data, windows, target, allowed);
      if renamed { return Result(thrown, true, durable, false); }
    }
    if fd.None? { return Result(true, false, false, false); }
    var leftover := CleanUp(disk, tmp, target, allowed);
    return Result(true, false, false, leftover);
  }
}
