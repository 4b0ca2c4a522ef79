/** First-wins deduplication by key followed by a sort: what the merged list depends on. */
module KeyedMerge {
  import opened Basics

  /** Different keys may tie, as canonically equivalent spellings do in `localeCompare`. */
  ghost predicate TotalPreorder(le: (string, string) -> bool) {
    && (forall a :: le(a, a))
    && (forall a, b :: le(a, b) || le(b, a))
    && (forall a, b, c :: le(a, b) && le(b, c) ==> le(a, c))
  }

  ghost predicate TotalOrder(le: (string, string) -> bool) {
    TotalPreorder(le) && forall a, b :: le(a, b) && le(b, a) ==> a == b
  }

  /** The first element with a key. */
  function Lookup<T>(key: T -> string, s: seq<T>, k: string): Option<T> {
    if s == [] then None
    else if key(s[0]) == k then Some(s[0])
    else Lookup(key, s[1..], k)
  }

  /** Each key's first element, in first-seen order. */
  function DistinctBy<T>(key: T -> string, s: seq<T>): seq<T> {
    if s == [] then []
    else
      var init := DistinctBy(key, s[..|s| - 1]);
      var x := s[|s| - 1];
      if Lookup(key, init, key(x)).Some? then init else init + [x]
  }

  /** A stable sort: an element goes before those it ties with that come later. */
  function InsertBy<T>(le: (string, string) -> bool, key: T -> string, x: T, s: seq<T>): seq<T> {
    if s == [] then [x]
    else if le(key(x), key(s[0])) then [x] + s
    else [s[0]] + InsertBy(le, key, x, s[1..])
  }

  function SortBy<T>(le: (string, string) -> bool, key: T -> string, s: seq<T>): seq<T> {
    if s == [] then [] else InsertBy(le, key, s[0], SortBy(le, key, s[1..]))
  }

  function Merged<T>(le: (string, string) -> bool, key: T -> string, s: seq<T>): seq<T> {
    SortBy(le, key, DistinctBy(key, s))
  }

  ghost predicate Sorted<T>(le: (string, string) -> bool, key: T -> string, s: seq<T>) {
    forall i, j :: 0 <= i < j < |s| ==> le(key(s[i]), key(s[j]))
  }

  ghost predicate DistinctKeys<T>(key: T -> string, s: seq<T>) {
    forall i, j :: 0 <= i < j < |s| ==> key(s[i]) != key(s[j])
  }

  // ---- lookup ----

  lemma {:induction false} LookupConcat<T>(key: T -> string, s: seq<T>, t: seq<T>, k: string)
    ensures Lookup(key, s + t, k) == if Lookup(key, s, k).Some? then Lookup(key, s, k) else Lookup(key, t, k)
  {
    if s == [] {
      assert s + t == t;
    } else {
      assert (s + t)[1..] == s[1..] + t;
      LookupConcat(key, s[1..], t, k);
    }
  }

  lemma {:induction false} LookupFound<T>(key: T -> string, s: seq<T>, k: string)
    ensures Lookup(key, s, k).Some? ==> Lookup(key, s, k).value in s && key(Lookup(key, s, k).value) == k
    ensures Lookup(key, s, k).None? ==> forall x :: x in s ==> key(x) != k
  {
    if s != [] { LookupFound(key, s[1..], k); }
  }

  lemma {:induction false} LookupUnique<T>(key: T -> string, s: seq<T>, x: T)
    requires DistinctKeys(key, s)
    ensures x in s <==> Lookup(key, s, key(x)) == Some(x)
  {
    if s != [] {
      LookupUnique(key, s[1..], x);
      if x in s && s[0] != x {
        var i :| 0 <= i < |s| && s[i] == x;
        assert key(s[0]) != key(s[i]);
      }
    }
  }

  lemma {:induction false} DistinctByMeaning<T>(key: T -> string, s: seq<T>)
    ensures DistinctKeys(key, DistinctBy(key, s))
    ensures forall k :: Lookup(key, DistinctBy(key, s), k) == Lookup(key, s, k)
    ensures forall x :: x in DistinctBy(key, s) ==> x in s
  {
    if s != [] {
      var init, x := s[..|s| - 1], s[|s| - 1];
      DistinctByMeaning(key, init);
      assert s == init + [x];
      var d := DistinctBy(key, init);
      forall k ensures Lookup(key, DistinctBy(key, s), k) == Lookup(key, s, k) {
        LookupConcat(key, init, [x], k);
        LookupConcat(key, d, [x], k);
      }
      LookupFound(key, d, key(x));
    }
  }

  // ---- sorting ----

  lemma {:induction false} InsertByAdds<T>(le: (string, string) -> bool, key: T -> string, x: T, s: seq<T>)
    ensures forall y :: y in InsertBy(le, key, x, s) <==> y == x || y in s
  {
    if s != [] && !le(key(x), key(s[0])) {
      InsertByAdds(le, key, x, s[1..]);
      assert s == [s[0]] + s[1..];
    }
  }

  lemma InsertByMember<T>(le: (string, string) -> bool, key: T -> string, x: T, s: seq<T>, y: T)
    ensures y in InsertBy(le, key, x, s) <==> y == x || y in s
  {
    InsertByAdds(le, key, x, s);
  }

  lemma {:induction false} InsertByKeepsSorted<T>(le: (string, string) -> bool, key: T -> string, x: T, s: seq<T>)
    requires TotalPreorder(le) && Sorted(le, key, s)
    ensures Sorted(le, key, InsertBy(le, key, x, s))
  {
    if s != [] {
      var r := InsertBy(le, key, x, s[1..]);
      if le(key(x), key(s[0])) {
        assert forall i :: 0 <= i < |s| ==> le(key(x), key(s[i]));
      } else {
        InsertByKeepsSorted(le, key, x, s[1..]);
        InsertByAdds(le, key, x, s[1..]);
        forall i | 0 <= i < |r| ensures le(key(s[0]), key(r[i])) {
          InsertByMember(le, key, x, s[1..], r[i]);
        }
      }
    }
  }

  lemma {:induction false} InsertByKeepsDistinct<T>(le: (string, string) -> bool, key: T -> string, x: T, s: seq<T>)
    requires DistinctKeys(key, s) && forall y :: y in s ==> key(y) != key(x)
    ensures DistinctKeys(key, InsertBy(le, key, x, s))
  {
    if s != [] && !le(key(x), key(s[0])) {
      var r := InsertBy(le, key, x, s[1..]);
      InsertByKeepsDistinct(le, key, x, s[1..]);
      InsertByAdds(le, key, x, s[1..]);
      forall i | 0 <= i < |r| ensures key(s[0]) != key(r[i]) {
        InsertByMember(le, key, x, s[1..], r[i]);
      }
    }
  }

  lemma {:induction false} SortByMember<T>(le: (string, string) -> bool, key: T -> string, s: seq<T>, y: T)
    ensures y in SortBy(le, key, s) <==> y in s
  {
    if s != [] {
      SortByMember(le, key, s[1..], y);
      InsertByMember(le, key, s[0], SortBy(le, key, s[1..]), y);
      assert s == [s[0]] + s[1..];
    }
  }

  lemma {:induction false} SortByMeaning<T>(le: (string, string) -> bool, key: T -> string, s: seq<T>)
    requires TotalPreorder(le)
    ensures Sorted(le, key, SortBy(le, key, s))
    ensures forall y :: y in SortBy(le, key, s) <==> y in s
    ensures DistinctKeys(key, s) ==> DistinctKeys(key, SortBy(le, key, s))
  {
    if s != [] {
      var r := SortBy(le, key, s[1..]);
      SortByMeaning(le, key, s[1..]);
      InsertByKeepsSorted(le, key, s[0], r);
      if DistinctKeys(key, s) {
        forall y | y in r ensures key(y) != key(s[0]) {
          SortByMember(le, key, s[1..], y);
          var i :| 0 <= i < |s[1..]| && s[1..][i] == y;
          assert key(s[0]) != key(s[i + 1]);
        }
        InsertByKeepsDistinct(le, key, s[0], r);
      }
    }
    forall y ensures y in SortBy(le, key, s) <==> y in s {
      SortByMember(le, key, s, y);
    }
  }

  lemma {:induction false} SortedIsFixed<T>(le: (string, string) -> bool, key: T -> string, s: seq<T>)
    requires TotalPreorder(le) && Sorted(le, key, s)
    ensures SortBy(le, key, s) == s
  {
    if s != [] {
      SortedIsFixed(le, key, s[1..]);
      assert s == [s[0]] + s[1..];
    }
  }

  /** No two different keys of the list tie. */
  ghost predicate TellsApart<T>(le: (string, string) -> bool, key: T -> string, s: seq<T>) {
    forall i, j :: 0 <= i < j < |s| && le(key(s[i]), key(s[j])) && le(key(s[j]), key(s[i])) ==> key(s[i]) == key(s[j])
  }

  /** A sorted list with distinct keys that do not tie is determined by its elements. */
  lemma {:induction false} SortedIsUnique<T>(le: (string, string) -> bool, key: T -> string, s: seq<T>, t: seq<T>)
    requires TotalPreorder(le) && TellsApart(le, key, s) && Sorted(le, key, s) && Sorted(le, key, t)
    requires DistinctKeys(key, s) && DistinctKeys(key, t)
    requires forall x :: x in s <==> x in t
    ensures s == t
  {
    if s == [] {
      HasMember(t);
    } else {
      assert s[0] in t;
      var i :| 0 <= i < |t| && t[i] == s[0];
      assert t[0] in s;
      var j :| 0 <= j < |s| && s[j] == t[0];
      assert s[0] == t[0];
      forall x ensures x in s[1..] <==> x in t[1..] {
        TailMembership(key, s, x);
        TailMembership(key, t, x);
      }
      SortedIsUnique(le, key, s[1..], t[1..]);
      assert s == [s[0]] + s[1..] && t == [t[0]] + t[1..];
    }
  }

  lemma HasMember<T>(s: seq<T>)
    ensures s != [] ==> s[0] in s
  {
  }

  lemma TailMembership<T>(key: T -> string, s: seq<T>, x: T)
    requires s != [] && DistinctKeys(key, s)
    ensures x in s[1..] <==> x in s && x != s[0]
  {
    if x in s && x != s[0] {
      var i :| 0 <= i < |s| && s[i] == x;
      assert s[1..][i - 1] == x;
    }
    if x in s[1..] {
      var i :| 0 <= i < |s[1..]| && s[1..][i] == x;
      assert s[i + 1] == x && key(s[0]) != key(s[i + 1]);
    }
  }

  lemma MergedMeaning<T>(le: (string, string) -> bool, key: T -> string, s: seq<T>)
    requires TotalPreorder(le)
    ensures Sorted(le, key, Merged(le, key, s)) && DistinctKeys(key, Merged(le, key, s))
    ensures forall x :: x in Merged(le, key, s) <==> Lookup(key, s, key(x)) == Some(x)
    ensures forall k :: Lookup(key, Merged(le, key, s), k) == Lookup(key, s, k)
    ensures Merged(le, key, s) == [] <==> s == []
  {
    var d, m := DistinctBy(key, s), Merged(le, key, s);
    DistinctByMeaning(key, s);
    SortByMeaning(le, key, d);
    forall x ensures x in m <==> Lookup(key, s, key(x)) == Some(x) {
      LookupUnique(key, d, x);
    }
    forall k ensures Lookup(key, m, k) == Lookup(key, s, k) {
      LookupFound(key, m, k);
      LookupFound(key, s, k);
      var r := if Lookup(key, m, k).Some? then Lookup(key, m, k) else Lookup(key, s, k);
      if r.Some? { LookupUnique(key, m, r.value); }
    }
    if s != [] {
      LookupFound(key, s, key(s[0]));
      assert Lookup(key, s, key(s[0])).Some?;
    }
  }

  /** Only which element each key finds first matters to the merged list. */
  lemma MergedDependsOnLookup<T>(le: (string, string) -> bool, key: T -> string, s: seq<T>, t: seq<T>)
    requires TotalOrder(le)
    requires forall k :: Lookup(key, s, k) == Lookup(key, t, k)
    ensures Merged(le, key, s) == Merged(le, key, t)
  {
    MergedMeaning(le, key, s);
    MergedMeaning(le, key, t);
    SortedIsUnique(le, key, Merged(le, key, s), Merged(le, key, t));
  }

  // ---- keys that tie ----

  predicate Tied(le: (string, string) -> bool, a: string, b: string) {
    le(a, b) && le(b, a)
  }

  /** The elements whose keys tie with `k`, in order. */
  function Ties<T>(le: (string, string) -> bool, key: T -> string, s: seq<T>, k: string): seq<T> {
    if s == [] then [] else (if Tied(le, key(s[0]), k) then [s[0]] else []) + Ties(le, key, s[1..], k)
  }

  lemma SwapEmpty<T>(a: seq<T>, b: seq<T>, c: seq<T>)
    requires a == [] || b == []
    ensures a + (b + c) == b + (a + c)
  {
    assert [] + c == c && [] + (a + c) == a + c && [] + (b + c) == b + c;
  }

  lemma Cancel<T>(h: seq<T>, a: seq<T>, b: seq<T>)
    requires h + a == h + b
    ensures a == b
  {
    assert (h + a)[|h|..] == a && (h + b)[|h|..] == b;
  }

  lemma {:induction false} TiesConcat<T>(le: (string, string) -> bool, key: T -> string, s: seq<T>, t: seq<T>,
                                         k: string)
    ensures Ties(le, key, s + t, k) == Ties(le, key, s, k) + Ties(le, key, t, k)
  {
    if s == [] {
      assert s + t == t && [] + Ties(le, key, t, k) == Ties(le, key, t, k);
    } else {
      var h := if Tied(le, key(s[0]), k) then [s[0]] else [];
      assert (s + t)[1..] == s[1..] + t && (s + t)[0] == s[0];
      TiesConcat(le, key, s[1..], t, k);
      Regroup(h, Ties(le, key, s[1..], k), Ties(le, key, t, k));
    }
  }

  lemma TiesCons<T>(le: (string, string) -> bool, key: T -> string, x: T, s: seq<T>, k: string)
    ensures Ties(le, key, [x] + s, k) == (if Tied(le, key(x), k) then [x] else []) + Ties(le, key, s, k)
  {
    assert ([x] + s)[1..] == s;
  }

  lemma TiesSnoc<T>(le: (string, string) -> bool, key: T -> string, s: seq<T>, x: T, k: string)
    ensures Ties(le, key, s + [x], k) == Ties(le, key, s, k) + if Tied(le, key(x), k) then [x] else []
  {
    TiesConcat(le, key, s, [x], k);
    assert Ties(le, key, [x][1..], k) == [];
  }

  lemma {:induction false} TiesMember<T>(le: (string, string) -> bool, key: T -> string, s: seq<T>, k: string, x: T)
    ensures x in Ties(le, key, s, k) <==> x in s && Tied(le, key(x), k)
  {
    if s != [] {
      TiesMember(le, key, s[1..], k, x);
      assert s == [s[0]] + s[1..];
    }
  }

  /** Inserting puts an element before those it ties with. */
  lemma {:induction false} InsertByTies<T>(le: (string, string) -> bool, key: T -> string, x: T, s: seq<T>, k: string)
    requires TotalPreorder(le)
    ensures Ties(le, key, InsertBy(le, key, x, s), k) == Ties(le, key, [x] + s, k)
  {
    if s == [] {
      assert [x] + s == [x];
    } else if !le(key(x), key(s[0])) {
      InsertByTies(le, key, x, s[1..], k);
      PassesBy(le, key, x, s, InsertBy(le, key, x, s[1..]), k);
    }
  }

  lemma PassesBy<T>(le: (string, string) -> bool, key: T -> string, x: T, s: seq<T>, rest: seq<T>, k: string)
    requires TotalPreorder(le) && s != [] && !le(key(x), key(s[0]))
    requires Ties(le, key, rest, k) == Ties(le, key, [x] + s[1..], k)
    ensures Ties(le, key, [s[0]] + rest, k) == Ties(le, key, [x] + s, k)
  {
    TiesCons(le, key, x, s[1..], k);
    TiesCons(le, key, s[0], rest, k);
    TiesCons(le, key, x, s, k);
    SwapEmpty(if Tied(le, key(s[0]), k) then [s[0]] else [], if Tied(le, key(x), k) then [x] else [],
              Ties(le, key, s[1..], k));
  }

  /** A stable sort leaves tied elements in their order. */
  lemma {:induction false} SortByTies<T>(le: (string, string) -> bool, key: T -> string, s: seq<T>, k: string)
    requires TotalPreorder(le)
    ensures Ties(le, key, SortBy(le, key, s), k) == Ties(le, key, s, k)
  {
    if s != [] {
      var rest := SortBy(le, key, s[1..]);
      SortByTies(le, key, s[1..], k);
      InsertByTies(le, key, s[0], rest, k);
      TiesCons(le, key, s[0], rest, k);
    }
  }

  /** A sorted list is determined by the order within its ties. */
  lemma {:induction false} SortedByTies<T>(le: (string, string) -> bool, key: T -> string, s: seq<T>, t: seq<T>)
    requires TotalPreorder(le) && Sorted(le, key, s) && Sorted(le, key, t)
    requires forall k :: Ties(le, key, s, k) == Ties(le, key, t, k)
    ensures s == t
  {
    if s == [] || t == [] {
      NoTiesNoElements(le, key, s, t);
      NoTiesNoElements(le, key, t, s);
    } else {
      SameHeads(le, key, s, t);
      forall k ensures Ties(le, key, s[1..], k) == Ties(le, key, t[1..], k) {
        assert Ties(le, key, s, k) == Ties(le, key, t, k);
        Cancel(if Tied(le, key(s[0]), k) then [s[0]] else [], Ties(le, key, s[1..], k), Ties(le, key, t[1..], k));
      }
      SortedByTies(le, key, s[1..], t[1..]);
      assert s == [s[0]] + s[1..] && t == [t[0]] + t[1..];
    }
  }

  lemma NoTiesNoElements<T>(le: (string, string) -> bool, key: T -> string, s: seq<T>, t: seq<T>)
    requires TotalPreorder(le) && forall k :: Ties(le, key, s, k) == Ties(le, key, t, k)
    ensures s == [] ==> t == []
  {
    if t != [] {
      TiesMember(le, key, t, key(t[0]), t[0]);
      TiesMember(le, key, s, key(t[0]), t[0]);
      assert Ties(le, key, s, key(t[0])) == Ties(le, key, t, key(t[0]));
    }
  }

  lemma SameHeads<T>(le: (string, string) -> bool, key: T -> string, s: seq<T>, t: seq<T>)
    requires TotalPreorder(le) && Sorted(le, key, s) && Sorted(le, key, t) && s != [] && t != []
    requires forall k :: Ties(le, key, s, k) == Ties(le, key, t, k)
    ensures s[0] == t[0]
  {
    HeadIsLeast(le, key, s, t);
    HeadIsLeast(le, key, t, s);
    var k := key(s[0]);
    assert Ties(le, key, s, k) == Ties(le, key, t, k);
    assert Ties(le, key, s, k)[0] == s[0] && Ties(le, key, t, k)[0] == t[0];
  }

  lemma HeadIsLeast<T>(le: (string, string) -> bool, key: T -> string, s: seq<T>, t: seq<T>)
    requires TotalPreorder(le) && Sorted(le, key, s) && s != [] && t != []
    requires forall k :: Ties(le, key, s, k) == Ties(le, key, t, k)
    ensures le(key(s[0]), key(t[0]))
  {
    TiesMember(le, key, t, key(t[0]), t[0]);
    TiesMember(le, key, s, key(t[0]), t[0]);
    assert Ties(le, key, s, key(t[0])) == Ties(le, key, t, key(t[0]));
    var i :| 0 <= i < |s| && s[i] == t[0];
  }

  // ---- merging in stages ----

  lemma {:induction false} LookupTies<T>(le: (string, string) -> bool, key: T -> string, s: seq<T>, k: string,
                                         k': string)
    requires TotalPreorder(le) && Tied(le, k', k)
    ensures Lookup(key, Ties(le, key, s, k), k') == Lookup(key, s, k')
  {
    if s != [] {
      LookupTies(le, key, s[1..], k, k');
      var rest := Ties(le, key, s[1..], k);
      assert ([s[0]] + rest)[1..] == rest && [] + rest == rest;
    }
  }

  lemma {:induction false} DistinctByTies<T>(le: (string, string) -> bool, key: T -> string, s: seq<T>, k: string)
    requires TotalPreorder(le)
    ensures Ties(le, key, DistinctBy(key, s), k) == DistinctBy(key, Ties(le, key, s, k))
  {
    if s != [] {
      var init, x := s[..|s| - 1], s[|s| - 1];
      var d, ties := DistinctBy(key, init), Ties(le, key, init, k);
      DistinctByTies(le, key, init, k);
      assert s == init + [x];
      TiesSnoc(le, key, init, x, k);
      TiesSnoc(le, key, d, x, k);
      if Tied(le, key(x), k) {
        LookupTies(le, key, d, k, key(x));
        DistinctBySnoc(key, ties, x);
      } else {
        assert ties + [] == ties && Ties(le, key, d, k) + [] == Ties(le, key, d, k);
      }
    }
  }

  lemma DistinctBySnoc<T>(key: T -> string, s: seq<T>, x: T)
    ensures DistinctBy(key, s + [x]) ==
      if Lookup(key, DistinctBy(key, s), key(x)).Some? then DistinctBy(key, s) else DistinctBy(key, s) + [x]
  {
    assert (s + [x])[..|s|] == s;
  }

  lemma {:induction false} DistinctIsFixed<T>(key: T -> string, s: seq<T>)
    requires DistinctKeys(key, s)
    ensures DistinctBy(key, s) == s
  {
    if s != [] {
      var init, x := s[..|s| - 1], s[|s| - 1];
      DistinctIsFixed(key, init);
      LookupFound(key, init, key(x));
      assert s == init + [x];
    }
  }

  lemma {:induction false} DistinctFirstPart<T>(key: T -> string, s: seq<T>, t: seq<T>)
    ensures DistinctBy(key, DistinctBy(key, s) + t) == DistinctBy(key, s + t)
  {
    var d := DistinctBy(key, s);
    if t == [] {
      DistinctByMeaning(key, s);
      DistinctIsFixed(key, d);
      assert d + t == d && s + t == s;
    } else {
      var init, x := t[..|t| - 1], t[|t| - 1];
      DistinctFirstPart(key, s, init);
      SameSnoc(key, d + init, s + init, x);
      assert t == init + [x];
      Regroup(d, init, [x]);
      Regroup(s, init, [x]);
    }
  }

  lemma SameSnoc<T>(key: T -> string, s: seq<T>, t: seq<T>, x: T)
    requires DistinctBy(key, s) == DistinctBy(key, t)
    ensures DistinctBy(key, s + [x]) == DistinctBy(key, t + [x])
  {
    DistinctBySnoc(key, s, x);
    DistinctBySnoc(key, t, x);
  }

  lemma {:induction false} DistinctSecondPart<T>(key: T -> string, s: seq<T>, t: seq<T>)
    ensures DistinctBy(key, s + DistinctBy(key, t)) == DistinctBy(key, s + t)
  {
    if t != [] {
      var init, x := t[..|t| - 1], t[|t| - 1];
      assert t == init + [x];
      DistinctSecondPart(key, s, init);
      DistinctBySnoc(key, init, x);
      Regroup(s, init, [x]);
      if Lookup(key, DistinctBy(key, init), key(x)).Some? {
        RepeatedIsDropped(key, s, init, x);
      } else {
        SameSnoc(key, s + DistinctBy(key, init), s + init, x);
        Regroup(s, DistinctBy(key, init), [x]);
      }
    }
  }

  lemma RepeatedIsDropped<T>(key: T -> string, s: seq<T>, init: seq<T>, x: T)
    requires Lookup(key, DistinctBy(key, init), key(x)).Some?
    ensures DistinctBy(key, s + init + [x]) == DistinctBy(key, s + init)
  {
    DistinctBySnoc(key, s + init, x);
    LookupAfterDistinct(key, init, key(x));
    LookupAfterDistinct(key, s + init, key(x));
    LookupConcat(key, s, init, key(x));
  }

  lemma LookupAfterDistinct<T>(key: T -> string, s: seq<T>, k: string)
    ensures Lookup(key, DistinctBy(key, s), k) == Lookup(key, s, k)
  {
    DistinctByMeaning(key, s);
  }

  lemma MergedTies<T>(le: (string, string) -> bool, key: T -> string, s: seq<T>, k: string)
    requires TotalPreorder(le)
    ensures Ties(le, key, Merged(le, key, s), k) == DistinctBy(key, Ties(le, key, s, k))
  {
    SortByTies(le, key, DistinctBy(key, s), k);
    DistinctByTies(le, key, s, k);
  }

  /** Merging may be done in stages, tied keys or not. */
  lemma MergedInStages<T>(le: (string, string) -> bool, key: T -> string, s: seq<T>, t: seq<T>)
    requires TotalPreorder(le)
    ensures Merged(le, key, Merged(le, key, s) + t) == Merged(le, key, s + t)
    ensures Merged(le, key, s + Merged(le, key, t)) == Merged(le, key, s + t)
  {
    MergedMeaning(le, key, s + t);
    MergedMeaning(le, key, Merged(le, key, s) + t);
    MergedMeaning(le, key, s + Merged(le, key, t));
    var whole := Merged(le, key, s + t);
    var first, second := Merged(le, key, Merged(le, key, s) + t), Merged(le, key, s + Merged(le, key, t));
    forall k ensures Ties(le, key, first, k) == Ties(le, key, whole, k) {
      FirstStageTies(le, key, s, t, k);
    }
    SortedByTies(le, key, first, whole);
    forall k ensures Ties(le, key, second, k) == Ties(le, key, whole, k) {
      SecondStageTies(le, key, s, t, k);
    }
    SortedByTies(le, key, second, whole);
  }

  lemma FirstStageTies<T>(le: (string, string) -> bool, key: T -> string, s: seq<T>, t: seq<T>, k: string)
    requires TotalPreorder(le)
    ensures Ties(le, key, Merged(le, key, Merged(le, key, s) + t), k) == Ties(le, key, Merged(le, key, s + t), k)
  {
    MergedTies(le, key, Merged(le, key, s) + t, k);
    MergedTies(le, key, s + t, k);
    MergedTies(le, key, s, k);
    TiesConcat(le, key, Merged(le, key, s), t, k);
    TiesConcat(le, key, s, t, k);
    DistinctFirstPart(key, Ties(le, key, s, k), Ties(le, key, t, k));
  }

  lemma SecondStageTies<T>(le: (string, string) -> bool, key: T -> string, s: seq<T>, t: seq<T>, k: string)
    requires TotalPreorder(le)
    ensures Ties(le, key, Merged(le, key, s + Merged(le, key, t)), k) == Ties(le, key, Merged(le, key, s + t), k)
  {
    MergedTies(le, key, s + Merged(le, key, t), k);
    MergedTies(le, key, s + t, k);
    MergedTies(le, key, t, k);
    TiesConcat(le, key, s, Merged(le, key, t), k);
    TiesConcat(le, key, s, t, k);
    DistinctSecondPart(key, Ties(le, key, s, k), Ties(le, key, t, k));
  }

  lemma MergedAssociates<T>(le: (string, string) -> bool, key: T -> string, s: seq<T>, t: seq<T>, u: seq<T>)
    requires TotalPreorder(le)
    ensures Merged(le, key, Merged(le, key, s + t) + u) == Merged(le, key, s + t + u)
    ensures Merged(le, key, s + Merged(le, key, t + u)) == Merged(le, key, s + t + u)
  {
    MergedInStages(le, key, s + t, u);
    MergedLast(le, key, s, t, u);
  }

  lemma MergedLast<T>(le: (string, string) -> bool, key: T -> string, s: seq<T>, t: seq<T>, u: seq<T>)
    requires TotalPreorder(le)
    ensures Merged(le, key, s + Merged(le, key, t + u)) == Merged(le, key, s + t + u)
  {
    MergedInStages(le, key, s, t + u);
    assert s + (t + u) == s + t + u;
  }

  lemma LookupAfterMerge<T>(le: (string, string) -> bool, key: T -> string, s: seq<T>, t: seq<T>, k: string)
    requires TotalPreorder(le)
    ensures Lookup(key, Merged(le, key, s) + t, k) == Lookup(key, s + t, k)
    ensures Lookup(key, s + Merged(le, key, t), k) == Lookup(key, s + t, k)
  {
    MergedMeaning(le, key, s);
    MergedMeaning(le, key, t);
    LookupConcat(key, Merged(le, key, s), t, k);
    LookupConcat(key, s, t, k);
    LookupConcat(key, s, Merged(le, key, t), k);
  }
}
