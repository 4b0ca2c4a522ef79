/** Flattening a configuration to its leaves, and the diff of two configurations. */
module ConfigDiff {
  import opened Basics
  import opened KeyedMerge

  /** Objects are unordered; arrays and empty objects are leaves like scalars. */
  datatype Json =
    | Null | Bool(b: bool) | Number(n: real) | Text(s: string) | Array(items: seq<Json>)
    | Object(fields: map<string, Json>)

  predicate Descends(v: Json) {
    v.Object? && v.fields != map[]
  }

  type Path = seq<string>

  function Join(path: Path): string {
    if path == [] then "" else if |path| == 1 then path[0] else path[0] + "." + Join(path[1..])
  }

  /** The value a path leads to. */
  function At(v: Json, path: Path): Option<Json>
    decreases |path|
  {
    if path == [] then Some(v)
    else if v.Object? && path[0] in v.fields then At(v.fields[path[0]], path[1..])
    else None
  }

  predicate IsLeaf(v: Json, path: Path) {
    At(v, path).Some? && !Descends(At(v, path).value)
  }

  predicate IsPlain(key: string) {
    key != "" && '.' !in key
  }

  predicate IsPlainPath(path: Path) {
    forall i | 0 <= i < |path| :: IsPlain(path[i])
  }

  /** No key on the way to a leaf is empty or has a dot. */
  ghost predicate PlainKeys(v: Json) {
    forall path :: At(v, path).Some? ==> IsPlainPath(path)
  }

  // ---- paths ----

  /** The pieces between the dots of a string; at least one, possibly empty. */
  function Split(s: string): (parts: seq<string>)
    ensures parts != []
  {
    if s == "" then [""]
    else
      var rest := Split(s[1..]);
      if s[0] == '.' then [""] + rest else [[s[0]] + rest[0]] + rest[1..]
  }

  /** The pieces of all the keys of a path. */
  function Pieces(path: Path): seq<string> {
    if path == [] then [""] else if |path| == 1 then Split(path[0]) else Split(path[0]) + Pieces(path[1..])
  }

  lemma {:induction false} SplitAtDot(a: string, b: string)
    ensures Split(a + "." + b) == Split(a) + Split(b)
  {
    var s := a + "." + b;
    if a == "" {
      assert s[0] == '.' && s[1..] == b;
    } else {
      assert s[0] == a[0] && s[1..] == a[1..] + "." + b;
      SplitAtDot(a[1..], b);
    }
  }

  lemma {:induction false} JoinSplit(s: string)
    ensures Join(Split(s)) == s
  {
    if s != "" {
      var rest := Split(s[1..]);
      JoinSplit(s[1..]);
      if s[0] == '.' {
        assert ([""] + rest)[1..] == rest;
      } else {
        assert ([[s[0]] + rest[0]] + rest[1..])[1..] == rest[1..];
      }
    }
  }

  lemma {:induction false} SplitJoin(p: Path)
    ensures Split(Join(p)) == Pieces(p)
  {
    if |p| > 1 {
      SplitAtDot(p[0], Join(p[1..]));
      SplitJoin(p[1..]);
    }
  }

  /** Two paths get the same dotted name exactly when their keys fall into the same pieces. */
  lemma CollideExactly(p: Path, q: Path)
    ensures Join(p) == Join(q) <==> Pieces(p) == Pieces(q)
  {
    SplitJoin(p);
    SplitJoin(q);
    JoinSplit(Join(p));
    JoinSplit(Join(q));
  }

  lemma {:induction false} SplitPlain(k: string)
    requires '.' !in k
    ensures Split(k) == [k]
  {
    if k != "" {
      SplitPlain(k[1..]);
      assert [k[0]] + k[1..] == k;
    }
  }

  lemma {:induction false} PlainPieces(p: Path)
    requires IsPlainPath(p) && p != []
    ensures Pieces(p) == p
  {
    assert IsPlain(p[0]);
    SplitPlain(p[0]);
    if |p| > 1 {
      PlainPieces(p[1..]);
      assert p == [p[0]] + p[1..];
    }
  }

  lemma JoinIsInjective(p: Path, q: Path)
    requires IsPlainPath(p) && IsPlainPath(q) && Join(p) == Join(q)
    ensures p == q
  {
    CollideExactly(p, q);
    assert (p != [] ==> IsPlain(p[0])) && (q != [] ==> IsPlain(q[0]));
    if p != [] { PlainPieces(p); }
    if q != [] { PlainPieces(q); }
  }

  // ---- leaves determine the tree ----

  lemma {:induction false} SomeLeaf(v: Json) returns (path: Path)
    ensures IsLeaf(v, path)
  {
    if Descends(v) {
      var k :| k in v.fields;
      var p := SomeLeaf(v.fields[k]);
      path := [k] + p;
    } else {
      path := [];
    }
  }

  ghost predicate SameLeaves(x: Json, y: Json) {
    forall path :: (IsLeaf(x, path) <==> IsLeaf(y, path)) && (IsLeaf(x, path) ==> At(x, path) == At(y, path))
  }

  lemma ChildLeaf(v: Json, k: string, path: Path)
    requires v.Object? && k in v.fields
    ensures IsLeaf(v, [k] + path) <==> IsLeaf(v.fields[k], path)
    ensures At(v, [k] + path) == At(v.fields[k], path)
  {
    assert ([k] + path)[1..] == path;
  }

  lemma {:induction false} SameLeavesMeansEqual(x: Json, y: Json)
    requires SameLeaves(x, y)
    ensures x == y
    decreases x
  {
    if !Descends(x) {
      assert IsLeaf(x, []);
    } else {
      assert !IsLeaf(x, []);
      forall k ensures k in x.fields <==> k in y.fields {
        if k in x.fields {
          var p := SomeLeaf(x.fields[k]);
          ChildLeaf(x, k, p);
          assert IsLeaf(y, [k] + p);
        }
        if k in y.fields {
          var p := SomeLeaf(y.fields[k]);
          ChildLeaf(y, k, p);
          assert IsLeaf(x, [k] + p);
        }
      }
      forall k | k in x.fields ensures x.fields[k] == y.fields[k] {
        forall p ensures (IsLeaf(x.fields[k], p) <==> IsLeaf(y.fields[k], p))
          && (IsLeaf(x.fields[k], p) ==> At(x.fields[k], p) == At(y.fields[k], p)) {
          ChildLeaf(x, k, p);
          ChildLeaf(y, k, p);
        }
        SameLeavesMeansEqual(x.fields[k], y.fields[k]);
      }
      assert x.fields == y.fields;
    }
  }

  // ---- flattening ----

  /** The order in which `Object.entries` lists the keys of the object at a path. */
  type Order = Path -> seq<string>

  ghost predicate IsOrderOf(order: Order, v: Json, prefix: Path) {
    forall p :: At(v, p).Some? && Descends(At(v, p).value) ==>
      Distinct(order(prefix + p)) && Members(order(prefix + p)) == At(v, p).value.fields.Keys
  }

  /** The leaves with their dotted names, in the order of the walk. */
  ghost function Leaves(v: Json, order: Order, prefix: Path): seq<(string, Json)>
    decreases v, |order(prefix)| + 1
  {
    if Descends(v) then FieldLeaves(v, order(prefix), order, prefix) else [(Join(prefix), v)]
  }

  ghost function FieldLeaves(v: Json, keys: seq<string>, order: Order, prefix: Path): seq<(string, Json)>
    requires v.Object?
    decreases v, |keys|
  {
    if keys == [] then []
    else
      var key := keys[|keys| - 1];
      FieldLeaves(v, keys[..|keys| - 1], order, prefix)
      + if key in v.fields then Leaves(v.fields[key], order, prefix + [key]) else []
  }

  /** `Map.set` for each leaf in turn. */
  function SetAll(out: map<string, Json>, leaves: seq<(string, Json)>): map<string, Json> {
    if leaves == [] then out
    else var n := |leaves| - 1; SetAll(out, leaves[..n])[leaves[n].0 := leaves[n].1]
  }

  lemma {:induction false} SetAllConcat(out: map<string, Json>, a: seq<(string, Json)>, b: seq<(string, Json)>)
    ensures SetAll(out, a + b) == SetAll(SetAll(out, a), b)
  {
    if b == [] {
      assert a + b == a;
    } else {
      SetAllConcat(out, a, b[..|b| - 1]);
      assert (a + b)[..|a + b| - 1] == a + b[..|b| - 1];
    }
  }

  /** Of several leaves with one name the last one stays. */
  lemma {:induction false} LastLeafStays(leaves: seq<(string, Json)>, i: nat)
    requires i < |leaves| && forall j :: i < j < |leaves| ==> leaves[j].0 != leaves[i].0
    ensures Get(SetAll(map[], leaves), leaves[i].0) == Some(leaves[i].1)
  {
    var n := |leaves| - 1;
    if i < n {
      LastLeafStays(leaves[..n], i);
    }
  }

  lemma {:induction false} NamesAreOfLeaves(leaves: seq<(string, Json)>, k: string) returns (i: nat)
    requires k in SetAll(map[], leaves)
    ensures i < |leaves| && leaves[i] == (k, SetAll(map[], leaves)[k])
    ensures forall j :: i < j < |leaves| ==> leaves[j].0 != k
  {
    var n := |leaves| - 1;
    i := n;
    if leaves[n].0 != k {
      i := NamesAreOfLeaves(leaves[..n], k);
    }
  }

  lemma ChildOrder(order: Order, v: Json, prefix: Path, key: string)
    requires v.Object? && key in v.fields && IsOrderOf(order, v, prefix)
    ensures IsOrderOf(order, v.fields[key], prefix + [key])
  {
    forall p | At(v.fields[key], p).Some? && Descends(At(v.fields[key], p).value)
      ensures Distinct(order(prefix + [key] + p))
      ensures Members(order(prefix + [key] + p)) == At(v.fields[key], p).value.fields.Keys
    {
      ChildLeaf(v, key, p);
      assert prefix + [key] + p == prefix + ([key] + p);
    }
  }

  lemma OrderAtRoot(order: Order, v: Json, prefix: Path)
    requires Descends(v) && IsOrderOf(order, v, prefix)
    ensures Distinct(order(prefix)) && Members(order(prefix)) == v.fields.Keys
  {
    assert At(v, []) == Some(v) && prefix + [] == prefix;
  }

  method FlattenConfigLeaves(v: Json, order: Order, prefix: Path, before: map<string, Json>)
    returns (out: map<string, Json>)
    requires IsOrderOf(order, v, prefix)
    ensures out == SetAll(before, Leaves(v, order, prefix))
    decreases v
  {
    if Descends(v) {
      out := before;
      var keys := order(prefix);
      OrderAtRoot(order, v, prefix);
      for i := 0 to |keys|
        invariant out == SetAll(before, FieldLeaves(v, keys[..i], order, prefix))
      {
        assert keys[i] in Members(keys);
        ChildOrder(order, v, prefix, keys[i]);
        out := FlattenConfigLeaves(v.fields[keys[i]], order, prefix + [keys[i]], out);
        NextField(v, keys, i, order, prefix, before);
      }
      assert keys[..|keys|] == keys;
    } else {
      out := before[Join(prefix) := v];
    }
  }

  lemma NextField(v: Json, keys: seq<string>, i: nat, order: Order, prefix: Path, before: map<string, Json>)
    requires v.Object? && i < |keys| && keys[i] in v.fields
    ensures SetAll(before, FieldLeaves(v, keys[..i + 1], order, prefix))
      == SetAll(SetAll(before, FieldLeaves(v, keys[..i], order, prefix)),
                Leaves(v.fields[keys[i]], order, prefix + [keys[i]]))
  {
    assert keys[..i + 1][..i] == keys[..i];
    var child := Leaves(v.fields[keys[i]], order, prefix + [keys[i]]);
    SetAllConcat(before, FieldLeaves(v, keys[..i], order, prefix), child);
  }

  // ---- the walk lists exactly the leaves ----

  lemma {:induction false} LeafIsListed(v: Json, order: Order, prefix: Path, p: Path)
    requires IsOrderOf(order, v, prefix) && IsLeaf(v, p)
    ensures (Join(prefix + p), At(v, p).value) in Leaves(v, order, prefix)
    decreases |p|
  {
    if p == [] {
      assert prefix + p == prefix;
    } else {
      OrderAtRoot(order, v, prefix);
      assert p[0] in Members(order(prefix));
      ChildOrder(order, v, prefix, p[0]);
      LeafIsListed(v.fields[p[0]], order, prefix + [p[0]], p[1..]);
      assert prefix + [p[0]] + p[1..] == prefix + p;
      FieldIsListed(v, order(prefix), order, prefix, p[0], (Join(prefix + p), At(v, p).value));
    }
  }

  lemma {:induction false} FieldIsListed(v: Json, keys: seq<string>, order: Order, prefix: Path, key: string,
                                         leaf: (string, Json))
    requires v.Object? && key in keys && key in v.fields && leaf in Leaves(v.fields[key], order, prefix + [key])
    ensures leaf in FieldLeaves(v, keys, order, prefix)
    decreases |keys|
  {
    if keys[|keys| - 1] != key {
      FieldIsListed(v, keys[..|keys| - 1], order, prefix, key, leaf);
    }
  }

  lemma {:induction false} ListedIsLeaf(v: Json, order: Order, prefix: Path, leaf: (string, Json)) returns (p: Path)
    requires leaf in Leaves(v, order, prefix)
    ensures IsLeaf(v, p) && Join(prefix + p) == leaf.0 && At(v, p) == Some(leaf.1)
    decreases v, |order(prefix)| + 1
  {
    if Descends(v) {
      p := ListedIsFieldLeaf(v, order(prefix), order, prefix, leaf);
    } else {
      p := [];
      assert prefix + p == prefix;
    }
  }

  lemma {:induction false} ListedIsFieldLeaf(v: Json, keys: seq<string>, order: Order, prefix: Path,
                                             leaf: (string, Json)) returns (p: Path)
    requires v.Object? && leaf in FieldLeaves(v, keys, order, prefix)
    ensures IsLeaf(v, p) && Join(prefix + p) == leaf.0 && At(v, p) == Some(leaf.1)
    decreases v, |keys|
  {
    var key := keys[|keys| - 1];
    if leaf in FieldLeaves(v, keys[..|keys| - 1], order, prefix) {
      p := ListedIsFieldLeaf(v, keys[..|keys| - 1], order, prefix, leaf);
    } else {
      var rest := ListedIsLeaf(v.fields[key], order, prefix + [key], leaf);
      p := [key] + rest;
      ChildLeaf(v, key, rest);
      assert prefix + [key] + rest == prefix + p;
    }
  }

  // ---- flattening is injective where names do not clash ----

  /** The leaves of a configuration by dotted name. */
  ghost function Flat(v: Json, order: Order): map<string, Json> {
    SetAll(map[], Leaves(v, order, []))
  }

  /** No two leaf paths of the two trees share a dotted name. */
  ghost predicate NoClash(x: Json, y: Json) {
    forall p, q :: (IsLeaf(x, p) || IsLeaf(y, p)) && (IsLeaf(x, q) || IsLeaf(y, q)) && Join(p) == Join(q) ==> p == q
  }

  lemma PlainKeysDoNotClash(x: Json, y: Json)
    requires PlainKeys(x) && PlainKeys(y)
    ensures NoClash(x, y)
  {
    forall p, q | (IsLeaf(x, p) || IsLeaf(y, p)) && (IsLeaf(x, q) || IsLeaf(y, q)) && Join(p) == Join(q)
      ensures p == q {
      JoinIsInjective(p, q);
    }
  }

  lemma FlatNamesAreLeaves(v: Json, order: Order, k: string) returns (p: Path)
    requires k in Flat(v, order)
    ensures IsLeaf(v, p) && Join(p) == k && At(v, p) == Some(Flat(v, order)[k])
  {
    var leaves := Leaves(v, order, []);
    var i := NamesAreOfLeaves(leaves, k);
    p := ListedIsLeaf(v, order, [], leaves[i]);
    assert [] + p == p;
  }

  lemma FlatNamesEveryLeaf(v: Json, order: Order, p: Path)
    requires IsOrderOf(order, v, []) && IsLeaf(v, p)
    ensures Join(p) in Flat(v, order)
  {
    LeafIsListed(v, order, [], p);
    assert [] + p == p;
    NameIsSet(Leaves(v, order, []), (Join(p), At(v, p).value));
  }

  lemma {:induction false} NameIsSet(leaves: seq<(string, Json)>, leaf: (string, Json))
    requires leaf in leaves
    ensures leaf.0 in SetAll(map[], leaves)
  {
    var n := |leaves| - 1;
    if leaves[n].0 != leaf.0 {
      NameIsSet(leaves[..n], leaf);
    }
  }

  /** The leaf at `p` is the one filed under its name, on either side. */
  lemma FlatHoldsLeaf(x: Json, y: Json, order: Order, p: Path)
    requires IsOrderOf(order, x, []) && NoClash(x, y) && (IsLeaf(x, p) || IsLeaf(y, p))
    ensures Get(Flat(x, order), Join(p)) == if IsLeaf(x, p) then At(x, p) else None
  {
    if IsLeaf(x, p) {
      FlatNamesEveryLeaf(x, order, p);
    }
    if Join(p) in Flat(x, order) {
      var q := FlatNamesAreLeaves(x, order, Join(p));
      assert q == p;
    }
  }

  /** Trees whose leaf names do not clash flatten alike only if they are equal, whatever their entry orders. */
  lemma FlattenIsInjective(x: Json, y: Json, ox: Order, oy: Order)
    requires NoClash(x, y) && IsOrderOf(ox, x, []) && IsOrderOf(oy, y, [])
    ensures Flat(x, ox) == Flat(y, oy) <==> x == y
  {
    if Flat(x, ox) == Flat(y, oy) {
      forall p ensures (IsLeaf(x, p) <==> IsLeaf(y, p)) && (IsLeaf(x, p) ==> At(x, p) == At(y, p)) {
        if IsLeaf(x, p) || IsLeaf(y, p) {
          FlatHoldsLeaf(x, y, ox, p);
          FlatHoldsLeaf(y, x, oy, p);
        }
      }
      SameLeavesMeansEqual(x, y);
    }
    if x == y {
      forall k ensures Get(Flat(x, ox), k) == Get(Flat(y, oy), k) {
        if k in Flat(x, ox) {
          var p := FlatNamesAreLeaves(x, ox, k);
          FlatHoldsLeaf(y, x, oy, p);
        }
        if k in Flat(y, oy) {
          var p := FlatNamesAreLeaves(y, oy, k);
          FlatHoldsLeaf(x, y, ox, p);
        }
      }
      SameByGet(Flat(x, ox), Flat(y, oy));
    }
  }

  function Dotted(a: string, b: string): Json {
    Object(map[a + "." + b := Null])
  }

  function Nested(a: string, b: string): Json {
    Object(map[a := Object(map[b := Null])])
  }

  /** A dot in a key makes different trees flatten alike. */
  lemma DotsCanCollide(a: string, b: string, od: Order, on: Order)
    requires IsOrderOf(od, Dotted(a, b), []) && IsOrderOf(on, Nested(a, b), [])
    ensures Dotted(a, b) != Nested(a, b) && Flat(Dotted(a, b), od) == Flat(Nested(a, b), on)
  {
    var inner := Object(map[b := Null]);
    OnlyField(Dotted(a, b), od, [], a + "." + b, Null);
    OnlyField(Nested(a, b), on, [], a, inner);
    assert [] + [a] == [a];
    ChildOrder(on, Nested(a, b), [], a);
    OnlyField(inner, on, [a], b, Null);
    assert [] + [a + "." + b] == [a + "." + b] && [a] + [b] == [a, b];
    assert Join([a, b]) == Join([a + "." + b]) by {
      assert [a, b][1..] == [b];
    }
    assert a + "." + b != a;
    assert a + "." + b in Dotted(a, b).fields;
  }

  lemma OnlyField(v: Json, order: Order, prefix: Path, key: string, child: Json)
    requires v == Object(map[key := child]) && IsOrderOf(order, v, prefix)
    ensures Leaves(v, order, prefix) == Leaves(child, order, prefix + [key])
  {
    assert key in v.fields && v.fields.Keys == {key};
    OrderAtRoot(order, v, prefix);
    var keys := order(prefix);
    assert key in Members(keys);
    forall i | 0 <= i < |keys| ensures keys[i] == key {
      assert keys[i] in Members(keys);
    }
    var n := |keys| - 1;
    assert keys[0] == keys[n];
    assert keys == [key] && keys[..0] == [];
    assert FieldLeaves(v, keys[..0], order, prefix) == [];
  }

  // ---- the diff ----

  /** A missing value is one the other side does not have. */
  datatype Row = Row(path: string, local: Option<Json>, other: Option<Json>)

  function PathOf(r: Row): string {
    r.path
  }

  ghost predicate IsRow(xs: map<string, Json>, ys: map<string, Json>, r: Row) {
    r.local == Get(xs, r.path) && r.other == Get(ys, r.path) && r.local != r.other
  }

  /** The rows of the differing leaves, each once, sorted by path. */
  ghost predicate IsDiff(le: (string, string) -> bool, xs: map<string, Json>, ys: map<string, Json>, rows: seq<Row>) {
    && Sorted(le, PathOf, rows) && DistinctKeys(PathOf, rows)
    && forall r :: r in rows <==> IsRow(xs, ys, r)
  }

  /** The loop over the paths of both sides, then the sort. */
  method DiffLeaves(le: (string, string) -> bool, localLeaves: map<string, Json>, otherLeaves: map<string, Json>)
    returns (rows: seq<Row>)
    requires TotalPreorder(le)
    ensures IsDiff(le, localLeaves, otherLeaves, rows)
  {
    var paths := localLeaves.Keys + otherLeaves.Keys;
    var unsorted: seq<Row> := [];
    while paths != {}
      invariant paths <= localLeaves.Keys + otherLeaves.Keys
      invariant DistinctKeys(PathOf, unsorted)
      invariant forall r :: r in unsorted <==> IsRow(localLeaves, otherLeaves, r) && r.path !in paths
      decreases paths
    {
      var path :| path in paths;
      var row := Row(path, Get(localLeaves, path), Get(otherLeaves, path));
      if row.local != row.other {
        unsorted := unsorted + [row];
      }
      paths := paths - {path};
    }
    SortByMeaning(le, PathOf, unsorted);
    rows := SortBy(le, PathOf, unsorted);
  }

  /** A configuration with the order of its entries. */
  datatype Config = Config(value: Json, order: Order) {
    ghost predicate Valid() {
      IsOrderOf(order, value, [])
    }

    ghost function Flattened(): map<string, Json> {
      Flat(value, order)
    }
  }

  method DiffConfigs(le: (string, string) -> bool, local: Config, other: Config) returns (rows: seq<Row>)
    requires TotalPreorder(le) && local.Valid() && other.Valid()
    ensures IsDiff(le, local.Flattened(), other.Flattened(), rows)
  {
    var localLeaves := FlattenConfigLeaves(local.value, local.order, [], map[]);
    var otherLeaves := FlattenConfigLeaves(other.value, other.order, [], map[]);
    rows := DiffLeaves(le, localLeaves, otherLeaves);
  }

  /** Where leaf names do not clash, the diff is empty exactly when the configurations are equal. */
  lemma EmptyDiffMeansEqual(le: (string, string) -> bool, x: Config, y: Config, rows: seq<Row>)
    requires x.Valid() && y.Valid() && NoClash(x.value, y.value)
    requires IsDiff(le, x.Flattened(), y.Flattened(), rows)
    ensures rows == [] <==> x.value == y.value
  {
    FlattenIsInjective(x.value, y.value, x.order, y.order);
    EmptyDiffMeansSameLeaves(le, x.Flattened(), y.Flattened(), rows);
  }

  lemma EmptyDiffMeansSameLeaves(le: (string, string) -> bool, xs: map<string, Json>, ys: map<string, Json>,
                                 rows: seq<Row>)
    requires IsDiff(le, xs, ys, rows)
    ensures rows == [] <==> xs == ys
  {
    forall k ensures Get(xs, k) == Get(ys, k) <==> Row(k, Get(xs, k), Get(ys, k)) !in rows {
      assert Row(k, Get(xs, k), Get(ys, k)) in rows <==> IsRow(xs, ys, Row(k, Get(xs, k), Get(ys, k)));
    }
    if rows == [] {
      SameByGet(xs, ys);
    } else {
      assert rows[0] in rows;
    }
  }

  function Swap(rows: seq<Row>): seq<Row> {
    seq(|rows|, i requires 0 <= i < |rows| => Row(rows[i].path, rows[i].other, rows[i].local))
  }

  lemma SwapMember(rows: seq<Row>, r: Row)
    ensures r in Swap(rows) <==> Row(r.path, r.other, r.local) in rows
  {
    var s, swapped := Row(r.path, r.other, r.local), Swap(rows);
    if r in swapped {
      var i :| 0 <= i < |swapped| && swapped[i] == r;
      assert rows[i] == s;
    }
    if s in rows {
      var i :| 0 <= i < |rows| && rows[i] == s;
      assert swapped[i] == r;
    }
  }

  /** The diff the other way round has the same rows with the columns swapped, and in the same order if
      no two paths of its rows tie. */
  lemma ReversedDiffSwapsColumns(le: (string, string) -> bool, xs: map<string, Json>, ys: map<string, Json>,
                                 rows: seq<Row>, back: seq<Row>)
    requires TotalPreorder(le) && IsDiff(le, xs, ys, rows) && IsDiff(le, ys, xs, back)
    ensures forall r :: r in back <==> r in Swap(rows)
    ensures TellsApart(le, PathOf, rows) ==> back == Swap(rows)
  {
    var swapped := Swap(rows);
    forall r: Row ensures r in swapped <==> IsRow(ys, xs, r) {
      SwapMember(rows, r);
      assert Row(r.path, r.other, r.local) in rows <==> IsRow(xs, ys, Row(r.path, r.other, r.local));
    }
    if TellsApart(le, PathOf, rows) {
      SwapKeepsOrder(le, rows);
      SortedIsUnique(le, PathOf, swapped, back);
    }
  }

  lemma SwapKeepsOrder(le: (string, string) -> bool, rows: seq<Row>)
    requires Sorted(le, PathOf, rows) && DistinctKeys(PathOf, rows) && TellsApart(le, PathOf, rows)
    ensures Sorted(le, PathOf, Swap(rows)) && DistinctKeys(PathOf, Swap(rows)) && TellsApart(le, PathOf, Swap(rows))
  {
    assert forall i :: 0 <= i < |rows| ==> PathOf(Swap(rows)[i]) == PathOf(rows[i]);
  }

  /** One row laid over a leaf map. */
  function Overlay(leaves: map<string, Json>, rows: seq<Row>): map<string, Json> {
    if rows == [] then leaves
    else
      var r := rows[|rows| - 1];
      var rest := Overlay(leaves, rows[..|rows| - 1]);
      if r.other.Some? then rest[r.path := r.other.value] else rest - {r.path}
  }

  lemma {:induction false} OverlayMeaning(leaves: map<string, Json>, rows: seq<Row>, k: string)
    requires DistinctKeys(PathOf, rows)
    ensures forall i :: 0 <= i < |rows| && rows[i].path == k ==> Get(Overlay(leaves, rows), k) == rows[i].other
    ensures (forall i :: 0 <= i < |rows| ==> rows[i].path != k) ==> Get(Overlay(leaves, rows), k) == Get(leaves, k)
  {
    if rows != [] {
      var n := |rows| - 1;
      OverlayMeaning(leaves, rows[..n], k);
      forall i | 0 <= i < n && rows[i].path == k ensures Get(Overlay(leaves, rows), k) == rows[i].other {
        assert PathOf(rows[i]) != PathOf(rows[n]) && rows[..n][i] == rows[i];
      }
    }
  }

  /** Laying the rows over the local leaves gives the other leaves. */
  lemma OverlayGivesOther(le: (string, string) -> bool, xs: map<string, Json>, ys: map<string, Json>, rows: seq<Row>)
    requires IsDiff(le, xs, ys, rows)
    ensures Overlay(xs, rows) == ys
  {
    var r := Overlay(xs, rows);
    forall k ensures Get(r, k) == Get(ys, k) {
      OverlayMeaning(xs, rows, k);
      var row := Row(k, Get(xs, k), Get(ys, k));
      if row in rows {
        var i :| 0 <= i < |rows| && rows[i] == row;
      } else {
        forall i | 0 <= i < |rows| ensures rows[i].path != k {
          assert rows[i] in rows;
        }
      }
    }
    SameByGet(r, ys);
  }
}
