/** Replacing the globally installed package, with a rollback to what was installed before. */
module PackageInstall {
  import opened Basics

  // ---- the prefix ----

  type Path = seq<string>

  datatype Entry = Dir | File(content: seq<bv8>, mode: nat) | Link(target: string)

  /** Everything under the prefix by path; links are not followed. */
  type Files = map<Path, Entry>

  /** Every entry but the prefix itself lies in a directory. */
  ghost predicate IsTree(files: Files) {
    forall p | p in files && p != [] :: Get(files, p[..|p| - 1]) == Some(Dir)
  }

  function Ancestors(path: Path): set<Path> {
    set i | 0 <= i < |path| :: path[..i]
  }

  predicate WayIsClear(files: Files, path: Path) {
    forall i | 0 <= i < |path| && path[..i] in files :: files[path[..i]] == Dir
  }

  function Cleared(files: Files, path: Path): Files {
    map p | p in files && !(path <= p) :: files[p]
  }

  function WithDirs(files: Files, path: Path): Files {
    files + map p | p in Ancestors(path) && p !in files :: Dir
  }

  lemma {:induction false} NothingBelowAbsent(files: Files, path: Path, p: Path)
    requires IsTree(files) && path <= p && (path !in files || files[path] != Dir) && p != path
    ensures p !in files
    decreases |p|
  {
    if p in files {
      var parent := p[..|p| - 1];
      assert Get(files, parent) == Some(Dir) && path <= parent;
      NothingBelowAbsent(files, path, parent);
    }
  }

  // ---- the previous package ----

  datatype Expected = Expected(name: string, version: string)

  /** A launcher or the package entry as it was; an absent one is none. */
  datatype Snapshot = Snapshot(path: Path, entry: Option<Entry>)

  datatype Prior = Prior(expected: Expected, package: Entry, launchers: seq<Snapshot>)

  /** Where the package and its launchers belong, and what is read through them. */
  datatype Host = Host(
    packageDir: Path,
    launchers: seq<Path>,
    metadata: Files -> Option<Expected>,
    owns: (Files, Path) -> bool,
    genuine: (Files, Expected, bool) -> bool,
    created: nat -> nat)

  function OwnPaths(host: Host): seq<Path> {
    [host.packageDir] + host.launchers
  }

  /** No own path is the prefix, and none lies at or below another. */
  predicate IsLaidOut(host: Host) {
    var own := OwnPaths(host);
    forall i, j | 0 <= i < |own| && 0 <= j < |own| :: own[i] != [] && (i != j ==> !(own[i] <= own[j]))
  }

  datatype Inspected = Refused | NoPackage | Found(prior: Prior)

  function Snapshots(host: Host, files: Files): seq<Snapshot> {
    seq(|host.launchers|, i requires 0 <= i < |host.launchers| =>
      Snapshot(host.launchers[i], Get(files, host.launchers[i])))
  }

  predicate LauncherIsOwned(host: Host, files: Files, launcher: Path) {
    launcher in files ==> files[launcher] != Dir && host.owns(files, launcher)
  }

  function InspectPriorGlobalPackage(host: Host, files: Files, name: string): Inspected {
    if host.packageDir !in files then
      if exists i | 0 <= i < |host.launchers| :: host.launchers[i] in files then Refused else NoPackage
    else if files[host.packageDir].File? then Refused
    else
      var metadata := host.metadata(files);
      if metadata.None? || metadata.value.name != name then Refused
      else if exists i | 0 <= i < |host.launchers| :: !LauncherIsOwned(host, files, host.launchers[i]) then Refused
      else Found(Prior(metadata.value, files[host.packageDir], Snapshots(host, files)))
  }

  /** A launcher without a package; or a package path that is a plain file, has no readable metadata or another
      package's, or comes with a launcher that is a directory or not its own. */
  predicate MustRefuse(host: Host, files: Files, name: string) {
    if host.packageDir in files then
      || files[host.packageDir].File?
      || host.metadata(files) == None || host.metadata(files).value.name != name
      || exists i | 0 <= i < |host.launchers| && host.launchers[i] in files ::
           files[host.launchers[i]] == Dir || !host.owns(files, host.launchers[i])
    else exists i | 0 <= i < |host.launchers| :: host.launchers[i] in files
  }

  /** The inspection refuses exactly these prefixes; otherwise it reports the package that stands there, as it
      stands. */
  lemma InspectedExactly(host: Host, files: Files, name: string)
    ensures
      match InspectPriorGlobalPackage(host, files, name)
      case Refused => MustRefuse(host, files, name)
      case NoPackage => !MustRefuse(host, files, name) && host.packageDir !in files
      case Found(prior) =>
        && !MustRefuse(host, files, name) && host.packageDir in files
        && prior.package == files[host.packageDir] && Some(prior.expected) == host.metadata(files)
        && |prior.launchers| == |host.launchers|
        && forall i | 0 <= i < |host.launchers| ::
             prior.launchers[i] == Snapshot(host.launchers[i], Get(files, host.launchers[i]))
  {
  }

  // ---- restoring ----

  function Recreated(host: Host, e: Entry): Entry {
    if e.File? then File(e.content, host.created(e.mode)) else e
  }

  function Put(host: Host, files: Files, s: Snapshot): Files {
    var cleared := Cleared(files, s.path);
    if s.entry.None? then cleared else WithDirs(cleared, s.path)[s.path := Recreated(host, s.entry.value)]
  }

  function PutAll(host: Host, files: Files, ss: seq<Snapshot>): Files
    decreases |ss|
  {
    if ss == [] then files else PutAll(host, Put(host, files, ss[0]), ss[1..])
  }

  predicate IsOutside(own: seq<Path>, p: Path) {
    forall i | 0 <= i < |own| :: !(own[i] <= p)
  }

  predicate LeadsTo(own: seq<Path>, p: Path) {
    exists i | 0 <= i < |own| :: p in Ancestors(own[i])
  }

  /** Outside the own paths nothing is lost or changed, and at most directories leading to them are new. */
  ghost predicate OthersKept(own: seq<Path>, was: Files, now: Files) {
    && (forall p | p in was && IsOutside(own, p) :: Get(now, p) == Some(was[p]))
    && (forall p | p in now && IsOutside(own, p) :: p in was || LeadsTo(own, p))
  }

  function OwnSnapshots(host: Host, prior: Prior): seq<Snapshot> {
    [Snapshot(host.packageDir, Some(prior.package))] + prior.launchers
  }

  predicate Apart(ss: seq<Snapshot>) {
    forall i, j | 0 <= i < |ss| && 0 <= j < |ss| && i != j :: !(ss[i].path <= ss[j].path)
  }

  class Prefix {
    var files: Files
    const faulty: bool

    method RemoveEntry(path: Path) returns (ok: bool)
      requires IsTree(files)
      modifies `files
      ensures !faulty ==> ok
      ensures ok ==> files == Cleared(old(files), path)
      ensures OthersKept([path], old(files), files)
    {
      ok := *;
      if faulty && !ok {
        var gone: set<Path> := *;
        files := map p | p in files && !(path <= p && p in gone) :: files[p];
        OutsideOne(path);
        return;
      }
      ok := true;
      if path in files {
        files := Cleared(files, path);
      } else {
        forall p | p in files ensures !(path <= p) {
          if path <= p { NothingBelowAbsent(files, path, p); }
        }
        assert files == Cleared(files, path);
      }
      OutsideOne(path);
    }

    method MakeDirs(path: Path) returns (ok: bool)
      modifies `files
      ensures !faulty && WayIsClear(old(files), path) ==> ok
      ensures ok ==> WayIsClear(old(files), path) && files == WithDirs(old(files), path)
      ensures OthersKept([path], old(files), files)
    {
      ok := *;
      OutsideOne(path);
      if !WayIsClear(files, path) || (faulty && !ok) {
        var some: set<Path> := *;
        files := files + map p | p in Ancestors(path) && p in some && p !in files :: Dir;
        return false;
      }
      ok := true;
      files := WithDirs(files, path);
    }

    /** A symbolic link, or a file written whole; a failed write may leave part of it. */
    method Create(path: Path, e: Entry) returns (ok: bool)
      requires path !in files
      modifies `files
      ensures !faulty ==> ok
      ensures ok ==> files == old(files)[path := e]
      ensures OthersKept([path], old(files), files)
    {
      ok := *;
      OutsideOne(path);
      if faulty && !ok {
        var partial: Option<Entry> := *;
        files := if partial.Some? then files[path := partial.value] else files;
        return;
      }
      ok := true;
      files := files[path := e];
    }

    /** Put one entry back as its snapshot has it. */
    method PutBack(host: Host, s: Snapshot) returns (ok: bool)
      requires IsTree(files) && s.path != []
      modifies `files
      ensures !faulty && WayIsClear(old(files), s.path) ==> ok
      ensures ok ==> files == Put(host, old(files), s) && IsTree(files)
      ensures OthersKept([s.path], old(files), files)
    {
      ghost var was := files;
      ok := RemoveEntry(s.path);
      if !ok || s.entry.None? {
        if ok { ClearedIsTree(was, s.path); }
        return;
      }
      assert forall i | 0 <= i < |s.path| :: !(s.path <= s.path[..i]);
      ghost var cleared := files;
      ok := MakeDirs(s.path);
      ThenOthersKept(s.path, was, cleared, files);
      if !ok { return; }
      ghost var made := files;
      assert s.path !in Ancestors(s.path);
      ok := Create(s.path, Recreated(host, s.entry.value));
      ThenOthersKept(s.path, was, made, files);
      if ok { PutIsTree(host, was, s); }
    }

    method PutBackAll(host: Host, ss: seq<Snapshot>) returns (ok: bool)
      requires IsTree(files) && forall i | 0 <= i < |ss| :: ss[i].path != []
      modifies `files
      ensures ok ==> files == PutAll(host, old(files), ss)
      ensures !faulty && Apart(ss) && WaysAreClear(old(files), ss, 0) ==> ok
      ensures OthersKept(PathsOf(ss), old(files), files)
    {
      ghost var was := files;
      ok := true;
      var i := 0;
      while ok && i < |ss|
        invariant 0 <= i <= |ss|
        invariant ok ==> IsTree(files) && PutAll(host, was, ss) == PutAll(host, files, ss[i..])
        invariant OthersKept(PathsOf(ss), was, files)
        invariant !faulty && Apart(ss) && WaysAreClear(was, ss, 0) ==> ok && WaysAreClear(files, ss, i)
      {
        ghost var mid := files;
        ok := PutBack(host, ss[i]);
        PutAllNext(host, mid, ss, i);
        WidenOthersKept(ss, i, was, mid, files);
        if ok { PutKeepsWaysClear(host, mid, ss, i); }
        i := i + 1;
      }
    }

    method RestoreLinkedPackage(host: Host, prior: Prior) returns (ok: bool)
      requires IsTree(files)
      requires forall i | 0 <= i < |OwnSnapshots(host, prior)| :: OwnSnapshots(host, prior)[i].path != []
      modifies `files
      ensures ok ==> prior.package.Link? && files == PutAll(host, old(files), OwnSnapshots(host, prior))
      ensures !faulty && CanRestore(host, old(files), prior) ==> ok
      ensures OthersKept(PathsOf(OwnSnapshots(host, prior)), old(files), files)
    {
      if !prior.package.Link? || prior.package.target == "" { return false; }
      ok := PutBackAll(host, OwnSnapshots(host, prior));
    }
  }

  lemma PutAllNext(host: Host, files: Files, ss: seq<Snapshot>, i: nat)
    requires i < |ss|
    ensures PutAll(host, files, ss[i..]) == PutAll(host, Put(host, files, ss[i]), ss[i + 1..])
  {
    assert ss[i..][0] == ss[i] && ss[i..][1..] == ss[i + 1..];
  }

  predicate WaysAreClear(files: Files, ss: seq<Snapshot>, from: nat) {
    forall j | from <= j < |ss| :: WayIsClear(files, ss[j].path)
  }

  /** The snapshot is of a link, and only directories stand on the way to its entries. */
  predicate CanRestore(host: Host, files: Files, prior: Prior) {
    && prior.package.Link? && prior.package.target != ""
    && Apart(OwnSnapshots(host, prior)) && WaysAreClear(files, OwnSnapshots(host, prior), 0)
  }

  lemma PutKeepsWaysClear(host: Host, files: Files, ss: seq<Snapshot>, k: nat)
    requires k < |ss|
    ensures Apart(ss) && WaysAreClear(files, ss, k) ==> WaysAreClear(Put(host, files, ss[k]), ss, k + 1)
  {
    if !(Apart(ss) && WaysAreClear(files, ss, k)) { return; }
    forall j, i | k < j < |ss| && 0 <= i < |ss[j].path| && ss[j].path[..i] in Put(host, files, ss[k])
      ensures Put(host, files, ss[k])[ss[j].path[..i]] == Dir
    {
      assert !(ss[k].path <= ss[j].path) && WayIsClear(files, ss[j].path);
      PutAt(host, files, ss[k], ss[j].path[..i]);
    }
  }

  function PathsOf(ss: seq<Snapshot>): (r: seq<Path>)
    ensures |r| == |ss|
  {
    seq(|ss|, i requires 0 <= i < |ss| => ss[i].path)
  }

  lemma ThenOthersKept(path: Path, a: Files, b: Files, c: Files)
    requires OthersKept([path], a, b) && OthersKept([path], b, c)
    ensures OthersKept([path], a, c)
  {
    OutsideOne(path);
  }

  lemma WidenOthersKept(ss: seq<Snapshot>, k: nat, a: Files, b: Files, c: Files)
    requires k < |ss| && OthersKept(PathsOf(ss), a, b) && OthersKept([ss[k].path], b, c)
    ensures OthersKept(PathsOf(ss), a, c)
  {
    OutsideOne(ss[k].path);
    assert PathsOf(ss)[k] == ss[k].path;
  }

  lemma ClearedIsTree(files: Files, path: Path)
    requires IsTree(files) && path != []
    ensures IsTree(Cleared(files, path))
  {
    var cleared := Cleared(files, path);
    forall p | p in cleared && p != [] ensures Get(cleared, p[..|p| - 1]) == Some(Dir) {
      assert Get(files, p[..|p| - 1]) == Some(Dir);
    }
  }

  lemma PutIsTree(host: Host, files: Files, s: Snapshot)
    requires IsTree(files) && s.path != [] && s.entry.Some? && WayIsClear(files, s.path)
    ensures IsTree(Put(host, files, s))
  {
    var put := Put(host, files, s);
    forall p | p in put && p != [] ensures Get(put, p[..|p| - 1]) == Some(Dir) {
      var parent := p[..|p| - 1];
      PutAt(host, files, s, p);
      PutAt(host, files, s, parent);
      if p == s.path || (p !in files) {
        assert parent == s.path[..|parent|];
      } else {
        assert Get(files, parent) == Some(Dir);
      }
    }
  }

  lemma OutsideOne(path: Path)
    ensures forall p :: IsOutside([path], p) <==> !(path <= p)
    ensures forall p :: LeadsTo([path], p) <==> p in Ancestors(path)
  {
    assert [path][0] == path;
  }

  // ---- what restoring leaves at each path ----

  predicate LeadsToPresent(ss: seq<Snapshot>, p: Path) {
    exists i | 0 <= i < |ss| :: ss[i].entry.Some? && p in Ancestors(ss[i].path)
  }

  predicate IsClearOf(ss: seq<Snapshot>, p: Path) {
    forall i | 0 <= i < |ss| :: !(ss[i].path <= p)
  }

  function RecreatedAt(host: Host, s: Snapshot): Option<Entry> {
    if s.entry.Some? then Some(Recreated(host, s.entry.value)) else None
  }

  lemma PutAt(host: Host, files: Files, s: Snapshot, p: Path)
    ensures Get(Put(host, files, s), p) ==
      if p == s.path then RecreatedAt(host, s)
      else if s.path <= p then None
      else if p in files then Some(files[p])
      else if s.entry.Some? && p in Ancestors(s.path) then Some(Dir) else None
  {
    assert s.path !in Ancestors(s.path);
    assert forall q | q in Ancestors(s.path) :: |q| < |s.path|;
  }

  lemma {:induction false} PutAllOutside(host: Host, files: Files, ss: seq<Snapshot>, p: Path)
    requires IsClearOf(ss, p)
    ensures Get(PutAll(host, files, ss), p) ==
      if p in files then Some(files[p]) else if LeadsToPresent(ss, p) then Some(Dir) else None
    decreases |ss|
  {
    if ss != [] {
      PutAt(host, files, ss[0], p);
      PutAllOutside(host, Put(host, files, ss[0]), ss[1..], p);
      LeadsSomewhere(ss, p);
    }
  }

  lemma LeadsSomewhere(ss: seq<Snapshot>, p: Path)
    requires ss != []
    ensures LeadsToPresent(ss, p) <==> (ss[0].entry.Some? && p in Ancestors(ss[0].path)) || LeadsToPresent(ss[1..], p)
  {
    if i :| 0 <= i < |ss| && ss[i].entry.Some? && p in Ancestors(ss[i].path) {
      assert i > 0 ==> ss[1..][i - 1] == ss[i];
    }
    if j :| 0 <= j < |ss[1..]| && ss[1..][j].entry.Some? && p in Ancestors(ss[1..][j].path) {
      assert ss[j + 1] == ss[1..][j];
    }
  }

  lemma NoneLeads(ss: seq<Snapshot>, p: Path)
    requires forall i | 0 <= i < |ss| :: !(p <= ss[i].path)
    ensures !LeadsToPresent(ss, p)
  {
    forall i | 0 <= i < |ss| ensures p !in Ancestors(ss[i].path) {
      assert !(p <= ss[i].path);
    }
  }

  /** At an own path its snapshot, and nothing below it. */
  lemma {:induction false} PutAllOwn(host: Host, files: Files, ss: seq<Snapshot>, k: nat, p: Path)
    requires Apart(ss) && k < |ss| && ss[k].path <= p
    ensures Get(PutAll(host, files, ss), p) == if p == ss[k].path then RecreatedAt(host, ss[k]) else None
    decreases |ss|
  {
    if k > 0 {
      PutAllOwn(host, Put(host, files, ss[0]), ss[1..], k - 1, p);
    } else {
      PutAt(host, files, ss[0], p);
      forall i | 0 <= i < |ss[1..]| ensures !(ss[1..][i].path <= p) && !(p <= ss[1..][i].path) {
        assert ss[i + 1].path == ss[1..][i].path;
      }
      NoneLeads(ss[1..], p);
      PutAllOutside(host, Put(host, files, ss[0]), ss[1..], p);
    }
  }

  // ---- restoring reproduces the prefix ----

  /** The launchers that are files keep their mode when written again. */
  predicate ModesSurvive(host: Host, ss: seq<Snapshot>) {
    forall i | 0 <= i < |ss| && ss[i].entry.Some? && ss[i].entry.value.File? ::
      host.created(ss[i].entry.value.mode) == ss[i].entry.value.mode
  }

  predicate ComeBackAsTheyWere(host: Host, ss: seq<Snapshot>) {
    forall i | 0 <= i < |ss| :: RecreatedAt(host, ss[i]) == ss[i].entry
  }

  lemma ModesDecide(host: Host, ss: seq<Snapshot>)
    ensures ModesSurvive(host, ss) <==> ComeBackAsTheyWere(host, ss)
  {
    forall i | 0 <= i < |ss|
      ensures RecreatedAt(host, ss[i]) == ss[i].entry <==>
        (ss[i].entry.Some? && ss[i].entry.value.File? ==>
           host.created(ss[i].entry.value.mode) == ss[i].entry.value.mode) {}
  }

  /** Elsewhere the install changed nothing, except for directories restoring makes again. */
  ghost predicate IsConfined(ss: seq<Snapshot>, before: Files, now: Files) {
    forall p | IsClearOf(ss, p) :: Get(now, p) == Get(before, p) || (p !in now && LeadsToPresent(ss, p))
  }

  lemma SnapshotsDescribe(host: Host, files: Files, name: string, prior: Prior)
    requires IsLaidOut(host) && InspectPriorGlobalPackage(host, files, name) == Found(prior)
    ensures var ss := OwnSnapshots(host, prior);
      Apart(ss) && |ss| == |OwnPaths(host)|
      && forall i | 0 <= i < |ss| :: ss[i].path == OwnPaths(host)[i] && ss[i].entry == Get(files, ss[i].path)
  {
    var ss := OwnSnapshots(host, prior);
    forall i | 0 <= i < |ss| ensures ss[i].path == OwnPaths(host)[i] && ss[i].entry == Get(files, ss[i].path) {}
  }

  lemma {:induction false} AncestorsAreDirs(files: Files, path: Path, p: Path)
    requires IsTree(files) && path in files && p in Ancestors(path)
    ensures Get(files, p) == Some(Dir)
    decreases |path|
  {
    var parent := path[..|path| - 1];
    assert Get(files, parent) == Some(Dir);
    if p != parent {
      var i :| 0 <= i < |path| && p == path[..i];
      assert p == parent[..i];
      AncestorsAreDirs(files, parent, p);
    }
  }

  /** Whatever a failed install left, restoring a linked package gives the prefix back exactly
      when the install kept to its own paths and the launchers' modes survive. */
  lemma RestoringReproduces(host: Host, before: Files, now: Files, name: string, prior: Prior)
    requires IsLaidOut(host) && IsTree(before)
    requires InspectPriorGlobalPackage(host, before, name) == Found(prior) && prior.package.Link?
    ensures PutAll(host, now, OwnSnapshots(host, prior)) == before
      <==> IsConfined(OwnSnapshots(host, prior), before, now) && ModesSurvive(host, OwnSnapshots(host, prior))
  {
    ModesDecide(host, OwnSnapshots(host, prior));
    RestoringComesBack(host, before, now, name, prior);
  }

  /** Below an own path there is nothing, before and after. */
  lemma BelowAgrees(host: Host, before: Files, now: Files, name: string, prior: Prior, p: Path)
    requires IsLaidOut(host) && IsTree(before)
    requires InspectPriorGlobalPackage(host, before, name) == Found(prior) && prior.package.Link?
    requires
      var ss := OwnSnapshots(host, prior);
      !IsClearOf(ss, p) && forall i | 0 <= i < |ss| :: ss[i].path != p
    ensures Get(PutAll(host, now, OwnSnapshots(host, prior)), p) == Get(before, p)
  {
    var ss := OwnSnapshots(host, prior);
    SnapshotsDescribe(host, before, name, prior);
    var i :| 0 <= i < |ss| && ss[i].path <= p;
    PutAllOwn(host, now, ss, i, p);
    OwnHasNothingBelow(host, before, name, prior, i);
    NothingBelowAbsent(before, ss[i].path, p);
  }

  lemma RestoringComesBack(host: Host, before: Files, now: Files, name: string, prior: Prior)
    requires IsLaidOut(host) && IsTree(before)
    requires InspectPriorGlobalPackage(host, before, name) == Found(prior) && prior.package.Link?
    ensures PutAll(host, now, OwnSnapshots(host, prior)) == before
      <==> IsConfined(OwnSnapshots(host, prior), before, now) && ComeBackAsTheyWere(host, OwnSnapshots(host, prior))
  {
    var ss := OwnSnapshots(host, prior);
    var after := PutAll(host, now, ss);
    SnapshotsDescribe(host, before, name, prior);
    forall i | 0 <= i < |ss| ensures Get(after, ss[i].path) == Get(before, ss[i].path)
      <==> RecreatedAt(host, ss[i]) == ss[i].entry {
      PutAllOwn(host, now, ss, i, ss[i].path);
    }
    forall p | !IsClearOf(ss, p) && (forall i | 0 <= i < |ss| :: ss[i].path != p)
      ensures Get(after, p) == Get(before, p) {
      BelowAgrees(host, before, now, name, prior, p);
    }
    forall p | IsClearOf(ss, p)
      ensures Get(after, p) == Get(before, p)
        <==> Get(now, p) == Get(before, p) || (p !in now && LeadsToPresent(ss, p)) {
      OutsideAgrees(host, before, now, ss, p);
    }
    SameByGet(after, before);
  }

  lemma OwnHasNothingBelow(host: Host, files: Files, name: string, prior: Prior, i: nat)
    requires IsLaidOut(host) && InspectPriorGlobalPackage(host, files, name) == Found(prior) && prior.package.Link?
    requires i < |OwnSnapshots(host, prior)|
    ensures var path := OwnSnapshots(host, prior)[i].path; path !in files || files[path] != Dir
  {
    if i > 0 {
      assert LauncherIsOwned(host, files, host.launchers[i - 1]);
    }
  }

  lemma OutsideAgrees(host: Host, before: Files, now: Files, ss: seq<Snapshot>, p: Path)
    requires IsTree(before) && IsClearOf(ss, p) && forall i | 0 <= i < |ss| :: ss[i].entry == Get(before, ss[i].path)
    ensures Get(PutAll(host, now, ss), p) == Get(before, p)
      <==> Get(now, p) == Get(before, p) || (p !in now && LeadsToPresent(ss, p))
  {
    PutAllOutside(host, now, ss, p);
    if LeadsToPresent(ss, p) {
      var i :| 0 <= i < |ss| && ss[i].entry.Some? && p in Ancestors(ss[i].path);
      AncestorsAreDirs(before, ss[i].path, p);
    }
  }

  // ---- replacing the package ----

  /** What npm and the launched binary do: whether each call succeeds, and the prefix it leaves. */
  datatype Luck = Luck(preflight: bool, packed: bool, installed: bool, after: Files, runs: bool,
                       uninstalled: bool, afterUninstall: Files, reinstalled: bool, afterReinstall: Files,
                       runsBack: bool)

  datatype Ending =
    | PreflightFailed | InspectionRefused | PackFailed
    | Installed | CleanedUp | CleanupFailed | Restored | RollbackFailed

  predicate IsInstalled(host: Host, files: Files) {
    host.packageDir in files && host.metadata(files).Some?
  }

  /** The package that stands in the prefix, with its launchers. */
  function PriorAt(host: Host, files: Files): Prior
    requires IsInstalled(host, files)
  {
    Prior(host.metadata(files).value, files[host.packageDir],
          seq(|host.launchers|, i requires 0 <= i < |host.launchers| =>
            Snapshot(host.launchers[i], Get(files, host.launchers[i]))))
  }

  /** Everything that comes before the real prefix is changed has worked. */
  predicate IsReady(host: Host, files: Files, expected: Expected, luck: Luck) {
    && luck.preflight && !MustRefuse(host, files, expected.name)
    && (Get(files, host.packageDir) == Some(Dir) ==> luck.packed)
  }

  /** A linked package that was sound can be put back whole after an install that kept to its own paths. */
  ghost predicate IsRecoverable(host: Host, before: Files, prior: Prior, luck: Luck) {
    && prior.package.Link? && host.genuine(before, prior.expected, true) && luck.runsBack
    && CanRestore(host, luck.after, prior) && IsConfined(OwnSnapshots(host, prior), before, luck.after)
    && ModesSurvive(host, OwnSnapshots(host, prior))
  }

  /** The previous package verifies; a linked one has the whole prefix back exactly when the install
      kept to its own paths and the launchers' modes survive. */
  ghost predicate IsPutBack(host: Host, before: Files, now: Files, prior: Prior, luck: Luck) {
    && host.genuine(now, prior.expected, prior.package.Link?)
    && (prior.package.Link? ==>
          var ss := OwnSnapshots(host, prior);
          (now == before <==> IsConfined(ss, before, luck.after) && ModesSurvive(host, ss)))
  }

  method RollBack(host: Host, prior: Prior, name: string, target: Prefix, luck: Luck, ghost before: Files)
    returns (restored: bool)
    requires IsLaidOut(host) && IsTree(before) && IsTree(luck.after) && target.files == luck.after
    requires InspectPriorGlobalPackage(host, before, name) == Found(prior)
    modifies target
    ensures restored ==> IsPutBack(host, before, target.files, prior, luck)
    ensures !target.faulty && IsRecoverable(host, before, prior, luck) ==> restored
    ensures !prior.package.Link? ==> target.files == luck.afterReinstall
    ensures !prior.package.Link? ==>
      (restored <==> luck.reinstalled && luck.runsBack && host.genuine(luck.afterReinstall, prior.expected, false))
  {
    if prior.package.Link? {
      SnapshotsDescribe(host, before, name, prior);
      RestoringReproduces(host, before, luck.after, name, prior);
      restored := target.RestoreLinkedPackage(host, prior);
    } else {
      target.files := luck.afterReinstall;
      restored := luck.reinstalled;
    }
    restored := restored && host.genuine(target.files, prior.expected, prior.package.Link?) && luck.runsBack;
  }

  method ReplaceGlobalPackage(host: Host, expected: Expected, target: Prefix, luck: Luck) returns (ending: Ending)
    requires IsLaidOut(host) && IsTree(target.files) && IsTree(luck.after)
    modifies target
    ensures ending == PreflightFailed <==> !luck.preflight
    ensures ending == InspectionRefused <==> luck.preflight && MustRefuse(host, old(target.files), expected.name)
    ensures ending == PackFailed <==>
      && luck.preflight && !MustRefuse(host, old(target.files), expected.name)
      && Get(old(target.files), host.packageDir) == Some(Dir) && !luck.packed
    ensures ending == PreflightFailed || ending == InspectionRefused || ending == PackFailed ==>
      target.files == old(target.files)
    ensures ending == Installed <==>
      && IsReady(host, old(target.files), expected, luck)
      && luck.installed && luck.runs && host.genuine(luck.after, expected, false)
    ensures ending == Installed ==> target.files == luck.after
    ensures ending == CleanedUp ==> luck.uninstalled && target.files == luck.afterUninstall
    ensures ending == CleanupFailed ==> !luck.uninstalled
    ensures ending == CleanedUp || ending == CleanupFailed ==> host.packageDir !in old(target.files)
    ensures ending == Restored || ending == RollbackFailed ==>
      && IsInstalled(host, old(target.files))
      && var before, prior := old(target.files), PriorAt(host, old(target.files));
      if prior.package.Link? then
        && (ending == Restored ==> IsPutBack(host, before, target.files, prior, luck))
        && (!target.faulty && IsRecoverable(host, before, prior, luck) ==> ending == Restored)
      else
        && target.files == luck.afterReinstall
        && (ending == Restored <==>
              luck.reinstalled && luck.runsBack && host.genuine(luck.afterReinstall, prior.expected, false))
  {
    if !luck.preflight { return PreflightFailed; }
    var previous := InspectPriorGlobalPackage(host, target.files, expected.name);
    InspectedExactly(host, target.files, expected.name);
    if previous == Refused { return InspectionRefused; }
    if previous.Found? && !previous.prior.package.Link? && !luck.packed { return PackFailed; }
    ghost var before := target.files;
    target.files := luck.after;
    if luck.installed && host.genuine(target.files, expected, false) && luck.runs { return Installed; }
    if previous == NoPackage {
      target.files := luck.afterUninstall;
      return if luck.uninstalled then CleanedUp else CleanupFailed;
    }
    assert previous.prior == PriorAt(host, before);
    var restored := RollBack(host, previous.prior, expected.name, target, luck, before);
    return if restored then Restored else RollbackFailed;
  }
}
