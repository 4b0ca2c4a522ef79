/** Carrying the rows of a renamed asset to its new ref, and taking them back when the index step fails. */
module Rekey {
  import opened Basics

  /** A row keyed by an asset ref. */
  datatype Row<P> = Row(ref: string, payload: P)

  type Table<P> = seq<Row<P>>

  /** A usage event belongs to an index entry or is detached. */
  datatype Usage = Usage(entryId: Option<int>, detail: int)

  // ---- statements on one table ----

  function At<P>(t: Table<P>, ref: string): seq<P> {
    if t == [] then [] else (if t[0].ref == ref then [t[0].payload] else []) + At(t[1..], ref)
  }

  /** DELETE the rows at `ref` that `drop` picks. */
  function Without<P>(t: Table<P>, ref: string, drop: P -> bool): Table<P> {
    if t == [] then [] else (if t[0].ref == ref && drop(t[0].payload) then [] else [t[0]]) + Without(t[1..], ref, drop)
  }

  /** UPDATE the ref of the rows at `from`. */
  function Moved<P>(t: Table<P>, from: string, to: string): Table<P> {
    if t == [] then [] else [if t[0].ref == from then Row(to, t[0].payload) else t[0]] + Moved(t[1..], from, to)
  }

  function Rekeyed<P>(t: Table<P>, from: string, to: string, drop: P -> bool): Table<P> {
    Moved(Without(t, to, drop), from, to)
  }

  function Always<P>(): P -> bool {
    (p: P) => true
  }

  function Detached(): Usage -> bool {
    (u: Usage) => u.entryId.None?
  }

  /** A scalar table is left alone unless it has a row to move. */
  function RekeyedScalar<P>(t: Table<P>, from: string, to: string): Table<P> {
    if At(t, from) == [] then t else Rekeyed(t, from, to, Always<P>())
  }

  function RekeyedUsage(t: Table<Usage>, from: string, to: string): Table<Usage> {
    Rekeyed(t, from, to, Detached())
  }

  // ---- what the statements do to each ref ----

  function Kept<P>(ps: seq<P>, drop: P -> bool): seq<P> {
    if ps == [] then [] else (if drop(ps[0]) then [] else [ps[0]]) + Kept(ps[1..], drop)
  }

  lemma KeptCons<P>(p: P, rest: seq<P>, drop: P -> bool)
    ensures Kept([p] + rest, drop) == (if drop(p) then [] else [p]) + Kept(rest, drop)
  {
    assert ([p] + rest)[1..] == rest;
  }

  lemma {:induction false} WithoutAt<P>(t: Table<P>, ref: string, drop: P -> bool, r: string)
    ensures At(Without(t, ref, drop), r) == if r == ref then Kept(At(t, r), drop) else At(t, r)
  {
    if t != [] {
      WithoutAt(t[1..], ref, drop, r);
      var rest := Without(t[1..], ref, drop);
      KeptCons(t[0].payload, At(t[1..], r), drop);
      assert [] + rest == rest && [] + At(t[1..], r) == At(t[1..], r);
    }
  }

  lemma {:induction false} MovedAt<P>(t: Table<P>, from: string, to: string, r: string)
    requires from != to
    ensures r == from ==> At(Moved(t, from, to), r) == []
    ensures r != from && r != to ==> At(Moved(t, from, to), r) == At(t, r)
  {
    if t != [] {
      MovedAt(t[1..], from, to, r);
    }
  }

  lemma {:induction false} MovedTo<P>(t: Table<P>, from: string, to: string)
    requires from != to
    ensures multiset(At(Moved(t, from, to), to)) == multiset(At(t, from)) + multiset(At(t, to))
    ensures At(t, to) == [] ==> At(Moved(t, from, to), to) == At(t, from)
  {
    if t != [] {
      MovedTo(t[1..], from, to);
    }
  }

  ghost predicate Spares<P>(ps: seq<P>, drop: P -> bool) {
    forall p | p in ps :: !drop(p)
  }

  lemma {:induction false} NothingToDelete<P>(t: Table<P>, ref: string, drop: P -> bool)
    requires Spares(At(t, ref), drop)
    ensures Without(t, ref, drop) == t
  {
    if t != [] {
      assert At(t, ref) == (if t[0].ref == ref then [t[0].payload] else []) + At(t[1..], ref);
      NothingToDelete(t[1..], ref, drop);
    }
  }

  lemma {:induction false} NothingToMove<P>(t: Table<P>, from: string, to: string)
    requires At(t, from) == []
    ensures Moved(t, from, to) == t
  {
    if t != [] {
      NothingToMove(t[1..], from, to);
    }
  }

  lemma {:induction false} MovedBack<P>(t: Table<P>, from: string, to: string)
    requires At(t, to) == []
    ensures Moved(Moved(t, from, to), to, from) == t
  {
    if t != [] {
      MovedBack(t[1..], from, to);
      assert Moved(t, from, to)[1..] == Moved(t[1..], from, to);
    }
  }

  lemma {:induction false} KeptMembers<P>(ps: seq<P>, drop: P -> bool, p: P)
    ensures p in Kept(ps, drop) <==> p in ps && !drop(p)
  {
    if ps != [] {
      KeptMembers(ps[1..], drop, p);
      assert ps == [ps[0]] + ps[1..];
    }
  }

  // ---- what re-keying promises ----

  /** No row stays at the old ref, none of a third ref changes, and the rows at the new ref are
      the moved ones and those it had that are not dropped. */
  lemma RekeyedAt<P>(t: Table<P>, from: string, to: string, drop: P -> bool, r: string)
    requires from != to
    ensures At(Rekeyed(t, from, to, drop), from) == []
    ensures r != from && r != to ==> At(Rekeyed(t, from, to, drop), r) == At(t, r)
    ensures multiset(At(Rekeyed(t, from, to, drop), to)) == multiset(At(t, from)) + multiset(Kept(At(t, to), drop))
  {
    WithoutAt(t, to, drop, from);
    WithoutAt(t, to, drop, to);
    WithoutAt(t, to, drop, r);
    MovedAt(Without(t, to, drop), from, to, from);
    MovedAt(Without(t, to, drop), from, to, r);
    MovedTo(Without(t, to, drop), from, to);
  }

  /** Re-keying twice is re-keying once exactly when no row it moved is one it would drop. */
  lemma RekeyedTwice<P>(t: Table<P>, from: string, to: string, drop: P -> bool)
    requires from != to
    ensures Rekeyed(Rekeyed(t, from, to, drop), from, to, drop) == Rekeyed(t, from, to, drop)
      <==> Spares(At(t, from), drop)
  {
    var once := Rekeyed(t, from, to, drop);
    AgainOnlyDeletes(t, from, to, drop);
    DeletesNothing(once, to, drop);
    if Spares(At(t, from), drop) {
      forall p | p in At(once, to) ensures !drop(p) {
        OnceHolds(t, from, to, drop, p);
      }
    }
    if Spares(At(once, to), drop) {
      forall p | p in At(t, from) ensures !drop(p) {
        OnceHolds(t, from, to, drop, p);
      }
    }
  }

  lemma AgainOnlyDeletes<P>(t: Table<P>, from: string, to: string, drop: P -> bool)
    requires from != to
    ensures Rekeyed(Rekeyed(t, from, to, drop), from, to, drop) == Without(Rekeyed(t, from, to, drop), to, drop)
  {
    var once := Rekeyed(t, from, to, drop);
    RekeyedAt(t, from, to, drop, to);
    WithoutAt(once, to, drop, from);
    NothingToMove(Without(once, to, drop), from, to);
  }

  lemma DeletesNothing<P>(t: Table<P>, ref: string, drop: P -> bool)
    ensures Without(t, ref, drop) == t <==> Spares(At(t, ref), drop)
  {
    if Spares(At(t, ref), drop) {
      NothingToDelete(t, ref, drop);
    } else {
      var p :| p in At(t, ref) && drop(p);
      WithoutAt(t, ref, drop, ref);
      KeptMembers(At(t, ref), drop, p);
    }
  }

  lemma OnceHolds<P>(t: Table<P>, from: string, to: string, drop: P -> bool, p: P)
    requires from != to
    ensures p in At(Rekeyed(t, from, to, drop), to) <==> p in At(t, from) || (p in At(t, to) && !drop(p))
  {
    RekeyedAt(t, from, to, drop, to);
    KeptMembers(At(t, to), drop, p);
    assert p in At(Rekeyed(t, from, to, drop), to) <==> p in multiset(At(Rekeyed(t, from, to, drop), to));
    assert p in multiset(At(t, from)) + multiset(Kept(At(t, to), drop))
      <==> p in At(t, from) || p in Kept(At(t, to), drop);
  }

  /** Re-keying back restores a table exactly when it had no row at the new ref. */
  lemma RekeyedBack<P>(t: Table<P>, from: string, to: string, drop: P -> bool)
    requires from != to
    ensures Rekeyed(Rekeyed(t, from, to, drop), to, from, drop) == t <==> At(t, to) == []
  {
    var there := Rekeyed(t, from, to, drop);
    RekeyedAt(t, from, to, drop, from);
    RekeyedAt(there, to, from, drop, from);
    if At(t, to) == [] {
      NothingToDelete(t, to, drop);
      NothingToDelete(there, from, drop);
      MovedBack(t, from, to);
    }
  }

  // ---- scalar tables ----

  predicate KeyUnique<P>(t: Table<P>) {
    forall i, j | 0 <= i < j < |t| :: t[i].ref != t[j].ref
  }

  lemma {:induction false} InAt<P>(t: Table<P>, ref: string)
    ensures At(t, ref) == [] <==> forall i | 0 <= i < |t| :: t[i].ref != ref
  {
    if t != [] {
      InAt(t[1..], ref);
    }
  }

  lemma {:induction false} WithoutRows<P>(t: Table<P>, ref: string, drop: P -> bool, k: string)
    requires forall i | 0 <= i < |t| :: t[i].ref != k
    ensures forall i | 0 <= i < |Without(t, ref, drop)| :: Without(t, ref, drop)[i].ref != k
  {
    if t != [] {
      WithoutRows(t[1..], ref, drop, k);
    }
  }

  lemma {:induction false} WithoutKeepsUnique<P>(t: Table<P>, ref: string, drop: P -> bool)
    requires KeyUnique(t)
    ensures KeyUnique(Without(t, ref, drop))
  {
    if t != [] {
      WithoutKeepsUnique(t[1..], ref, drop);
      WithoutRows(t[1..], ref, drop, t[0].ref);
    }
  }

  lemma {:induction false} MovedRows<P>(t: Table<P>, from: string, to: string)
    ensures |Moved(t, from, to)| == |t|
    ensures forall i | 0 <= i < |t| :: Moved(t, from, to)[i] == if t[i].ref == from then Row(to, t[i].payload) else t[i]
  {
    if t != [] {
      MovedRows(t[1..], from, to);
    }
  }

  /** The UPDATE breaks no primary key because the DELETE before it has cleared the new ref. */
  lemma MoveKeepsUnique<P>(t: Table<P>, from: string, to: string)
    requires KeyUnique(t) && At(t, to) == []
    ensures KeyUnique(Moved(t, from, to))
  {
    MovedRows(t, from, to);
    InAt(t, to);
  }

  lemma {:induction false} NoneKept<P>(ps: seq<P>)
    ensures Kept(ps, Always<P>()) == []
  {
    if ps != [] {
      NoneKept(ps[1..]);
    }
  }

  lemma ClearedAt<P>(t: Table<P>, to: string)
    ensures At(Without(t, to, Always<P>()), to) == []
  {
    WithoutAt(t, to, Always<P>(), to);
    NoneKept(At(t, to));
  }

  /** A scalar table keeps its key; the old ref's row replaces the new ref's if there is one. */
  lemma ScalarPromise<P>(t: Table<P>, from: string, to: string, r: string)
    requires from != to && KeyUnique(t)
    ensures KeyUnique(RekeyedScalar(t, from, to))
    ensures At(RekeyedScalar(t, from, to), from) == []
    ensures At(RekeyedScalar(t, from, to), to) == if At(t, from) == [] then At(t, to) else At(t, from)
    ensures r != from && r != to ==> At(RekeyedScalar(t, from, to), r) == At(t, r)
    ensures RekeyedScalar(RekeyedScalar(t, from, to), from, to) == RekeyedScalar(t, from, to)
  {
    if At(t, from) != [] {
      var cleared := Without(t, to, Always<P>());
      RekeyedAt(t, from, to, Always<P>(), r);
      WithoutKeepsUnique(t, to, Always<P>());
      ClearedAt(t, to);
      MoveKeepsUnique(cleared, from, to);
      MovedTo(cleared, from, to);
      WithoutAt(t, to, Always<P>(), from);
    }
  }

  lemma ScalarBack<P>(t: Table<P>, from: string, to: string)
    requires from != to
    ensures RekeyedScalar(RekeyedScalar(t, from, to), to, from) == t <==> At(t, to) == []
  {
    if At(t, from) == [] {
      RekeyedAt(t, to, from, Always<P>(), to);
    } else {
      var there := Rekeyed(t, from, to, Always<P>());
      RekeyedAt(t, from, to, Always<P>(), from);
      assert |multiset(At(there, to))| >= |multiset(At(t, from))| > 0;
      assert At(there, to) != [];
      RekeyedBack(t, from, to, Always<P>());
    }
  }

  // ---- the state database ----

  datatype State = State(scalar: seq<Table<int>>, usage: Table<Usage>)

  /** The first `done` transactions have run: one for each scalar table, then the one for usage events. */
  function After(s: State, from: string, to: string, done: nat): State {
    State(
      seq(|s.scalar|, i requires 0 <= i < |s.scalar| =>
        if i < done then RekeyedScalar(s.scalar[i], from, to) else s.scalar[i]),
      if done > |s.scalar| then RekeyedUsage(s.usage, from, to) else s.usage)
  }

  function RekeyedState(s: State, from: string, to: string): State {
    After(s, from, to, |s.scalar| + 1)
  }

  function RowsAt(s: State, ref: string): seq<nat> {
    seq(|s.scalar|, i requires 0 <= i < |s.scalar| => |At(s.scalar[i], ref)|) + [|At(s.usage, ref)|]
  }

  predicate NothingAt(s: State, ref: string) {
    (forall i | 0 <= i < |s.scalar| :: At(s.scalar[i], ref) == []) && At(s.usage, ref) == []
  }

  predicate KeysUnique(s: State) {
    forall i | 0 <= i < |s.scalar| :: KeyUnique(s.scalar[i])
  }

  /** Swapping the refs and running again restores the state exactly when the new ref had no rows. */
  lemma CompensationRestoresExactly(s: State, from: string, to: string)
    requires from != to
    ensures RekeyedState(RekeyedState(s, from, to), to, from) == s <==> NothingAt(s, to)
  {
    var back := RekeyedState(RekeyedState(s, from, to), to, from);
    forall i | 0 <= i < |s.scalar| ensures back.scalar[i] == s.scalar[i] <==> At(s.scalar[i], to) == [] {
      ScalarBack(s.scalar[i], from, to);
    }
    RekeyedBack(s.usage, from, to, Detached());
    if NothingAt(s, to) {
      assert back.scalar == s.scalar;
    }
  }

  /** After one run nothing is left to move; a second run changes something exactly when the
      first one moved a detached usage event, because such events at the new ref are dropped. */
  lemma SecondRunMovesNothing(s: State, from: string, to: string)
    requires from != to && KeysUnique(s)
    ensures NothingAt(RekeyedState(s, from, to), from)
    ensures RekeyedState(RekeyedState(s, from, to), from, to) == RekeyedState(s, from, to)
      <==> forall u | u in At(s.usage, from) :: u.entryId.Some?
  {
    var once := RekeyedState(s, from, to);
    var twice := RekeyedState(once, from, to);
    forall i | 0 <= i < |s.scalar| ensures At(once.scalar[i], from) == [] && twice.scalar[i] == once.scalar[i] {
      ScalarPromise(s.scalar[i], from, to, from);
    }
    assert twice.scalar == once.scalar;
    RekeyedAt(s.usage, from, to, Detached(), from);
    RekeyedTwice(s.usage, from, to, Detached());
    assert forall u :: Detached()(u) <==> u.entryId.None?;
  }

  /** One detached event is enough for the second run to change something. */
  lemma SecondRunCanDropEvents()
    ensures
      var once := RekeyedState(State([], [Row("old", Usage(None, 0))]), "old", "new");
      RekeyedState(once, "old", "new") != once
  {
    var s := State([], [Row("old", Usage(None, 0))]);
    assert At(s.usage, "old")[0] == Usage(None, 0);
    SecondRunMovesNothing(s, "old", "new");
  }

  /** One row at the new ref is enough for the swapped call to restore something else. */
  lemma SwappedCallCanMoveMore()
    ensures
      var s := State([[Row("new", 1)]], []);
      RekeyedState(RekeyedState(s, "old", "new"), "new", "old") != s
  {
    var s := State([[Row("new", 1)]], []);
    assert At(s.scalar[0], "new")[0] == 1;
    CompensationRestoresExactly(s, "old", "new");
  }

  class StateDb {
    var scalar: seq<Table<int>>
    var usage: Table<Usage>

    ghost function Now(): State
      reads this
    {
      State(scalar, usage)
    }

    /** One transaction of a scalar table; its UPDATE must not meet a row at the new ref. */
    method RekeyScalar(i: nat, from: string, to: string) returns (changed: nat)
      requires i < |scalar| && KeyUnique(scalar[i]) && from != to
      modifies `scalar
      ensures scalar == old(scalar)[i := RekeyedScalar(old(scalar[i]), from, to)]
      ensures changed == |At(old(scalar[i]), from)|
    {
      if |At(scalar[i], from)| == 0 { return 0; }
      WithoutAt(scalar[i], to, Always<int>(), from);
      ClearedAt(scalar[i], to);
      WithoutKeepsUnique(scalar[i], to, Always<int>());
      scalar := scalar[i := Without(scalar[i], to, Always<int>())];
      changed := |At(scalar[i], from)|;
      MoveKeepsUnique(scalar[i], from, to);
      assert KeyUnique(Moved(scalar[i], from, to));
      scalar := scalar[i := Moved(scalar[i], from, to)];
    }

    /** Only the first `working` transactions succeed; a dry run reports what a run would. */
    method RekeyStateDb(from: string, to: string, dryRun: bool, working: nat) returns (thrown: bool, counts: seq<nat>)
      requires KeysUnique(Now()) && from != to
      modifies this
      ensures thrown <==> working <= |old(scalar)|
      ensures !thrown ==> counts == RowsAt(old(Now()), from)
      ensures Now() == After(old(Now()), from, to, if dryRun then 0 else working)
    {
      counts := [];
      thrown := false;
      ghost var s := Now();
      while |counts| < |scalar|
        invariant |counts| <= |scalar| == |s.scalar| && |counts| <= working
        invariant counts == RowsAt(s, from)[..|counts|]
        invariant Now() == After(s, from, to, if dryRun then 0 else |counts|)
      {
        var i := |counts|;
        if i == working { thrown := true; return; }
        assert scalar[i] == s.scalar[i] && KeyUnique(s.scalar[i]);
        var n := |At(scalar[i], from)|;
        if !dryRun {
          n := RekeyScalar(i, from, to);
        }
        counts := counts + [n];
      }
      if working <= |scalar| { thrown := true; return; }
      assert usage == s.usage;
      if dryRun {
        counts := counts + [|At(usage, from)|];
      } else {
        WithoutAt(usage, to, Detached(), from);
        usage := Without(usage, to, Detached());
        counts := counts + [|At(usage, from)|];
        usage := Moved(usage, from, to);
        AfterAll(s, from, to, working);
        assert scalar == RekeyedState(s, from, to).scalar;
      }
    }
  }

  lemma AfterAll(s: State, from: string, to: string, done: nat)
    requires done > |s.scalar|
    ensures After(s, from, to, done) == RekeyedState(s, from, to)
  {
    assert After(s, from, to, done).scalar == RekeyedState(s, from, to).scalar;
  }

  // ---- the whole script ----

  datatype Ref = Ref(origin: Option<string>, kind: string, name: string)

  function ConceptId(folder: Option<string>, name: string): string {
    if folder.Some? then folder.value + "/" + name else name
  }

  function FullRef(bundle: string, folder: Option<string>, name: string): string {
    bundle + "//" + ConceptId(folder, name)
  }

  lemma FullRefIsHeaded(bundle: string, folder: Option<string>, name: string)
    ensures FullRef(bundle, folder, name) == bundle + "//" + (if folder.Some? then folder.value + "/" else "") + name
  {
  }

  lemma DifferentNames(bundle: string, folder: Option<string>, a: string, b: string)
    requires a != b
    ensures FullRef(bundle, folder, a) != FullRef(bundle, folder, b)
  {
    var head := bundle + "//" + (if folder.Some? then folder.value + "/" else "");
    assert FullRef(bundle, folder, a) == head + a && FullRef(bundle, folder, b) == head + b;
    assert (head + a)[|head|..] == a && (head + b)[|head|..] == b;
  }

  /** What the script finds on disk and in the index. */
  datatype Found = Found(bundle: string, folder: Option<string>, oldOnDisk: bool, newOnDisk: bool, newIndexed: bool)

  /** How many transactions of each pass work, and what the index step does. */
  datatype Luck = Luck(working: nat, index: Option<nat>, workingBack: nat)

  datatype Ending =
    | Refused | StateFailed | RolledBack | BackFailed
    | Done(counts: seq<nat>, index: nat, announced: bool)

  function Sum(ns: seq<nat>): nat {
    if ns == [] then 0 else ns[0] + Sum(ns[1..])
  }

  lemma {:induction false} SumIsPositive(ns: seq<nat>)
    ensures Sum(ns) > 0 <==> exists i :: 0 <= i < |ns| && ns[i] > 0
  {
    if ns != [] {
      SumIsPositive(ns[1..]);
      assert forall i | 1 <= i < |ns| :: ns[i] == ns[1..][i - 1];
    }
  }

  /** The reported counts add up to nothing exactly when no row was there to move. */
  lemma SomethingMoved(s: State, ref: string)
    ensures Sum(RowsAt(s, ref)) > 0 <==> !NothingAt(s, ref)
  {
    SumIsPositive(RowsAt(s, ref));
    assert RowsAt(s, ref)[|s.scalar|] == |At(s.usage, ref)|;
    assert forall i | 0 <= i < |s.scalar| :: RowsAt(s, ref)[i] == |At(s.scalar[i], ref)|;
  }

  predicate IsRefused(from: Ref, to: Ref, found: Found) {
    from.origin != to.origin || from.kind != to.kind || from.name == to.name || found.oldOnDisk
    || (!found.newOnDisk && !found.newIndexed)
  }

  method RekeyAssetRef(db: StateDb, from: Ref, to: Ref, found: Found, dryRun: bool, luck: Luck) returns (ending: Ending)
    requires KeysUnique(db.Now())
    modifies db
    ensures ending == Refused <==> IsRefused(from, to, found)
    ensures ending == Refused || dryRun ==> db.Now() == old(db.Now())
    ensures ending == StateFailed <==> !IsRefused(from, to, found) && luck.working <= |old(db.Now()).scalar|
    ensures ending.Done? <==>
      !IsRefused(from, to, found) && luck.working > |old(db.Now()).scalar| && luck.index.Some?
    ensures
      var head := found.bundle + "//" + if found.folder.Some? then found.folder.value + "/" else "";
      var o, n, s := head + from.name, head + to.name, old(db.Now());
      match ending
      case Refused => true
      case StateFailed => luck.working <= |s.scalar| && (dryRun || db.Now() == After(s, o, n, luck.working))
      case Done(counts, index, announced) =>
        && counts == RowsAt(s, o) && luck.index == Some(index) && (dryRun || db.Now() == RekeyedState(s, o, n))
        && (announced <==> !dryRun && (index > 0 || !NothingAt(s, o)))
      case RolledBack => luck.index == None && (dryRun || (db.Now() == s <==> NothingAt(s, n)))
      case BackFailed =>
        && luck.index == None && !dryRun && luck.workingBack <= |s.scalar|
        && db.Now() == After(RekeyedState(s, o, n), n, o, luck.workingBack)
  {
    if from.origin != to.origin || from.kind != to.kind || from.name == to.name { return Refused; }
    var oldRef := FullRef(found.bundle, found.folder, from.name);
    var newRef := FullRef(found.bundle, found.folder, to.name);
    FullRefIsHeaded(found.bundle, found.folder, from.name);
    FullRefIsHeaded(found.bundle, found.folder, to.name);
    DifferentNames(found.bundle, found.folder, from.name, to.name);
    if found.oldOnDisk || (!found.newOnDisk && !found.newIndexed) { return Refused; }
    ghost var s := db.Now();
    var thrown, counts := db.RekeyStateDb(oldRef, newRef, dryRun, luck.working);
    if thrown { return StateFailed; }
    AfterAll(s, oldRef, newRef, luck.working);
    if luck.index == None {
      if !dryRun {
        ghost var there := db.Now();
        StaysUnique(s, oldRef, newRef);
        var thrownBack, _ := db.RekeyStateDb(newRef, oldRef, false, luck.workingBack);
        if thrownBack { return BackFailed; }
        AfterAll(there, newRef, oldRef, luck.workingBack);
        CompensationRestoresExactly(s, oldRef, newRef);
      }
      return RolledBack;
    }
    SomethingMoved(s, oldRef);
    return Done(counts, luck.index.value, !dryRun && luck.index.value + Sum(counts) > 0);
  }

  lemma StaysUnique(s: State, from: string, to: string)
    requires KeysUnique(s) && from != to
    ensures KeysUnique(RekeyedState(s, from, to))
  {
    forall i | 0 <= i < |s.scalar| ensures KeyUnique(RekeyedState(s, from, to).scalar[i]) {
      ScalarPromise(s.scalar[i], from, to, from);
    }
  }
}
