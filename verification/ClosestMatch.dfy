/** The did-you-mean search: rolling-row edit distance against its meaning, the least cost of
    an edit script. */
module ClosestMatch {
  import opened Basics

  // ---- meaning: edit scripts ----

  /** A script turns one string into another, character by character from the left. */
  datatype Script =
    | Done
    | Replace(was: char, now: char, rest: Script)
    | Insert(now: char, rest: Script)
    | Delete(was: char, rest: Script)

  function Source(s: Script): string {
    match s
    case Done => ""
    case Replace(was, _, rest) => [was] + Source(rest)
    case Insert(_, rest) => Source(rest)
    case Delete(was, rest) => [was] + Source(rest)
  }

  function Target(s: Script): string {
    match s
    case Done => ""
    case Replace(_, now, rest) => [now] + Target(rest)
    case Insert(now, rest) => [now] + Target(rest)
    case Delete(_, rest) => Target(rest)
  }

  /** Keeping a character is free; every other edit costs one. */
  function Cost(s: Script): nat {
    match s
    case Done => 0
    case Replace(was, now, rest) => (if was == now then 0 else 1) + Cost(rest)
    case Insert(_, rest) => 1 + Cost(rest)
    case Delete(_, rest) => 1 + Cost(rest)
  }

  predicate Edits(s: Script, a: string, b: string) {
    Source(s) == a && Target(s) == b
  }

  // ---- the recurrence the rows are filled from ----

  function Distance(a: string, b: string): nat
    decreases |a| + |b|
  {
    if a == "" then |b|
    else if b == "" then |a|
    else
      var a', b' := a[..|a| - 1], b[..|b| - 1];
      Min(Min(Distance(a', b) + 1, Distance(a, b') + 1),
          Distance(a', b') + if a[|a| - 1] == b[|b| - 1] then 0 else 1)
  }

  /** Appending an edit at the end of a script. */
  function Then(s: Script, last: Script): Script {
    match s
    case Done => last
    case Replace(was, now, rest) => Replace(was, now, Then(rest, last))
    case Insert(now, rest) => Insert(now, Then(rest, last))
    case Delete(was, rest) => Delete(was, Then(rest, last))
  }

  lemma {:induction false} ThenEdits(s: Script, last: Script)
    ensures Source(Then(s, last)) == Source(s) + Source(last)
    ensures Target(Then(s, last)) == Target(s) + Target(last)
    ensures Cost(Then(s, last)) == Cost(s) + Cost(last)
  {
    if s != Done {
      ThenEdits(s.rest, last);
      var x, y := Source(s.rest), Target(s.rest);
      match s {
        case Replace(was, now, _) =>
          ConsThen(was, x, Source(last));
          ConsThen(now, y, Target(last));
        case Insert(now, _) => ConsThen(now, y, Target(last));
        case Delete(was, _) => ConsThen(was, x, Source(last));
      }
    } else {
      assert "" + Source(last) == Source(last) && "" + Target(last) == Target(last);
    }
  }

  lemma ConsThen(c: char, a: string, b: string)
    ensures [c] + (a + b) == ([c] + a) + b
  {
  }

  lemma {:induction false} InsertAll(b: string) returns (s: Script)
    ensures Edits(s, "", b) && Cost(s) == |b|
  {
    if b == "" {
      s := Done;
    } else {
      s := InsertAll(b[1..]);
      s := Insert(b[0], s);
    }
  }

  lemma {:induction false} DeleteAll(a: string) returns (s: Script)
    ensures Edits(s, a, "") && Cost(s) == |a|
  {
    if a == "" {
      s := Done;
    } else {
      s := DeleteAll(a[1..]);
      s := Delete(a[0], s);
    }
  }

  /** Some script costs exactly the distance. */
  lemma {:induction false} DistanceIsReached(a: string, b: string) returns (s: Script)
    ensures Edits(s, a, b) && Cost(s) == Distance(a, b)
    decreases |a| + |b|
  {
    if a == "" {
      s := InsertAll(b);
    } else if b == "" {
      s := DeleteAll(a);
    } else {
      var a', b' := a[..|a| - 1], b[..|b| - 1];
      var x, y := a[|a| - 1], b[|b| - 1];
      assert a == a' + [x] && b == b' + [y];
      var last: Script;
      if Distance(a, b) == Distance(a', b) + 1 {
        s := DistanceIsReached(a', b);
        last := Delete(x, Done);
      } else if Distance(a, b) == Distance(a, b') + 1 {
        s := DistanceIsReached(a, b');
        last := Insert(y, Done);
      } else {
        s := DistanceIsReached(a', b');
        last := Replace(x, y, Done);
      }
      ThenEdits(s, last);
      s := Then(s, last);
    }
  }

  /** Appending characters costs no more than editing them. */
  lemma {:induction false} Subadditive(u: string, v: string, a: string, b: string)
    ensures Distance(u + a, v + b) <= Distance(u, v) + Distance(a, b)
    decreases |a| + |b|
  {
    if a == "" && b == "" {
      assert u + a == u && v + b == v;
    } else if a == "" || (b != "" && Distance(a, b) == Distance(a, b[..|b| - 1]) + 1) {
      Subadditive(u, v, a, b[..|b| - 1]);
      DropsLast(v, b);
      ShorterByOne(u + a, v + b);
    } else if b == "" || Distance(a, b) == Distance(a[..|a| - 1], b) + 1 {
      Subadditive(u, v, a[..|a| - 1], b);
      DropsLast(u, a);
      ShorterByOne(u + a, v + b);
    } else {
      Subadditive(u, v, a[..|a| - 1], b[..|b| - 1]);
      DropsLast(u, a);
      DropsLast(v, b);
      ShorterByOne(u + a, v + b);
    }
  }

  lemma DropsLast(u: string, a: string)
    requires a != ""
    ensures (u + a)[..|u + a| - 1] == u + a[..|a| - 1] && (u + a)[|u + a| - 1] == a[|a| - 1]
  {
  }

  /** The three ways in which one more character can be paid for. */
  lemma ShorterByOne(a: string, b: string)
    ensures a != "" ==> Distance(a, b) <= Distance(a[..|a| - 1], b) + 1
    ensures b != "" ==> Distance(a, b) <= Distance(a, b[..|b| - 1]) + 1
    ensures a != "" && b != "" ==>
      Distance(a, b) <= Distance(a[..|a| - 1], b[..|b| - 1]) + if a[|a| - 1] == b[|b| - 1] then 0 else 1
  {
  }

  /** No script costs less than the distance. */
  lemma {:induction false} DistanceIsALowerBound(s: Script)
    ensures Distance(Source(s), Target(s)) <= Cost(s)
  {
    if s != Done {
      DistanceIsALowerBound(s.rest);
      var a, b := Source(s.rest), Target(s.rest);
      assert "" + a == a && "" + b == b;
      match s
      case Replace(was, now, _) => Subadditive([was], [now], a, b);
      case Insert(now, _) => Subadditive("", [now], a, b);
      case Delete(was, _) => Subadditive([was], "", a, b);
    }
  }

  ghost predicate IsLeastCost(d: nat, a: string, b: string) {
    && (exists s :: Edits(s, a, b) && Cost(s) == d)
    && (forall s :: Edits(s, a, b) ==> d <= Cost(s))
  }

  lemma DistanceIsLeastCost(a: string, b: string)
    ensures IsLeastCost(Distance(a, b), a, b)
  {
    var s := DistanceIsReached(a, b);
    forall t | Edits(t, a, b) ensures Distance(a, b) <= Cost(t) {
      DistanceIsALowerBound(t);
    }
  }

  // ---- the distance is a metric ----

  lemma {:induction false} Symmetric(a: string, b: string)
    ensures Distance(a, b) == Distance(b, a)
    decreases |a| + |b|
  {
    if a != "" && b != "" {
      var a', b' := a[..|a| - 1], b[..|b| - 1];
      Symmetric(a', b);
      Symmetric(a, b');
      Symmetric(a', b');
    }
  }

  lemma {:induction false} ZeroOnlyWhenEqual(a: string, b: string)
    ensures Distance(a, b) == 0 <==> a == b
    decreases |a| + |b|
  {
    if a != "" && b != "" {
      var a', b' := a[..|a| - 1], b[..|b| - 1];
      assert a == a' + [a[|a| - 1]] && b == b' + [b[|b| - 1]];
      ZeroOnlyWhenEqual(a', b');
    }
  }

  /** Editing the last character away costs at most one more. */
  lemma {:induction false} LengthGap(a: string, b: string)
    ensures Distance(a, b) >= |a| - |b|
    ensures Distance(a, b) >= |b| - |a|
    decreases |a| + |b|
  {
    if a != "" && b != "" {
      var a', b' := a[..|a| - 1], b[..|b| - 1];
      LengthGap(a', b);
      LengthGap(a, b');
      LengthGap(a', b');
    }
  }

  lemma {:induction false} Triangle(a: string, b: string, c: string)
    ensures Distance(a, c) <= Distance(a, b) + Distance(b, c)
    decreases |a| + |b| + |c|
  {
    if a == "" || c == "" || b == "" {
      LengthGap(a, b);
      LengthGap(b, c);
      DistanceAtMostSum(a, c);
    } else {
      var a', b', c' := a[..|a| - 1], b[..|b| - 1], c[..|c| - 1];
      if Distance(a, b) == Distance(a', b) + 1 {
        Triangle(a', b, c);
      } else if Distance(b, c) == Distance(b, c') + 1 {
        Triangle(a, b, c');
      } else if Distance(a, b) == Distance(a, b') + 1 && Distance(b, c) == Distance(b', c) + 1 {
        Triangle(a, b', c);
      } else if Distance(a, b) == Distance(a, b') + 1 {
        Triangle(a, b', c');
      } else if Distance(b, c) == Distance(b', c) + 1 {
        Triangle(a', b', c);
      } else {
        Triangle(a', b', c');
      }
    }
  }

  lemma {:induction false} DistanceAtMostSum(a: string, b: string)
    ensures Distance(a, b) <= |a| + |b|
    decreases |a| + |b|
  {
    if a != "" && b != "" {
      DistanceAtMostSum(a[..|a| - 1], b);
    }
  }

  // ---- the code ----

  /** The distance between the first `i` characters of `a` and the first `j` of `b`. */
  ghost function Cell(a: string, b: string, i: nat, j: nat): nat
    requires i <= |a| && j <= |b|
  {
    Distance(a[..i], b[..j])
  }

  lemma CellRecurrence(a: string, b: string, i: nat, j: nat)
    requires 0 < i <= |a| && 0 < j <= |b|
    ensures Cell(a, b, i, j) ==
      Min(Min(Cell(a, b, i - 1, j) + 1, Cell(a, b, i, j - 1) + 1),
          Cell(a, b, i - 1, j - 1) + if a[i - 1] == b[j - 1] then 0 else 1)
  {
    assert a[..i][..i - 1] == a[..i - 1] && b[..j][..j - 1] == b[..j - 1];
  }

  ghost predicate IsRow(row: seq<nat>, a: string, b: string, i: nat)
    requires i <= |a|
  {
    && |row| <= |b| + 1
    && forall j :: 0 <= j < |row| ==> row[j] == Cell(a, b, i, j)
  }

  /** Fills one row from the previous one; the result is the least cost of turning `a` into `b`. */
  method EditDistance(a: string, b: string) returns (d: nat)
    ensures d == Distance(a, b)
    ensures IsLeastCost(d, a, b)
  {
    var previous: seq<nat> := seq(|b| + 1, j requires 0 <= j => j);
    var i := 1;
    while i <= |a|
      invariant 1 <= i <= |a| + 1
      invariant |previous| == |b| + 1 && IsRow(previous, a, b, i - 1)
    {
      var current: seq<nat> := [i];
      var j := 1;
      while j <= |b|
        invariant 1 <= j <= |b| + 1
        invariant |current| == j && IsRow(current, a, b, i)
      {
        var cost := if a[i - 1] == b[j - 1] then 0 else 1;
        CellRecurrence(a, b, i, j);
        current := current + [Min(Min(previous[j] + 1, current[j - 1] + 1), previous[j - 1] + cost)];
        j := j + 1;
      }
      previous := current;
      i := i + 1;
    }
    assert a[..|a|] == a && b[..|b|] == b;
    DistanceIsLeastCost(a, b);
    d := previous[|b|];
  }

  predicate IsFirstClosest(attempted: string, candidates: seq<string>, k: int) {
    && 0 <= k < |candidates|
    && (forall j | 0 <= j < |candidates| :: Distance(attempted, candidates[k]) <= Distance(attempted, candidates[j]))
    && (forall j | 0 <= j < k :: Distance(attempted, candidates[k]) < Distance(attempted, candidates[j]))
  }

  /** The first candidate of least distance, given when that distance is within the threshold. */
  method ClosestMatch(attempted: string, candidates: seq<string>, threshold: int) returns (r: Option<string>)
    ensures r.None? <==> forall k :: 0 <= k < |candidates| ==> Distance(attempted, candidates[k]) > threshold
    ensures r.Some? ==> Distance(attempted, r.value) <= threshold
    ensures r.Some? ==> exists k :: IsFirstClosest(attempted, candidates, k) && r.value == candidates[k]
  {
    var best: Option<string> := None;
    var bestDistance: nat := 0;
    ghost var at := 0;
    for i := 0 to |candidates|
      invariant best.None? <==> i == 0
      invariant best.Some? ==> at < i && best.value == candidates[at]
      invariant best.Some? ==> bestDistance == Distance(attempted, candidates[at])
      invariant forall j :: 0 <= j < i ==> bestDistance <= Distance(attempted, candidates[j])
      invariant forall j :: 0 <= j < i && j < at ==> bestDistance < Distance(attempted, candidates[j])
    {
      var distance := EditDistance(attempted, candidates[i]);
      if best.None? || distance < bestDistance {
        bestDistance := distance;
        best := Some(candidates[i]);
        at := i;
      }
    }
    assert best.Some? ==> IsFirstClosest(attempted, candidates, at);
    r := if best.Some? && bestDistance <= threshold then best else None;
  }
}
