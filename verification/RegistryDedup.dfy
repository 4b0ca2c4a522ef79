/** Deduplicating a list of registry entries, and exactly when parts of the list may be deduplicated first. */
module RegistryDedup {
  import opened Basics
  import opened KeyedMerge
  import opened RegistryMerge

  // ---- the list in first-seen order ----

  function Id(e: Entry): string {
    e.id
  }

  function Ids(es: seq<Entry>): (ids: seq<string>)
    ensures |ids| == |es|
  {
    seq(|es|, i requires 0 <= i < |es| => es[i].id)
  }

  /** One turn of the loop: merge into the entry with this id, or add a new one at the end. */
  function Absorb(o: Orders, byId: seq<Entry>, e: Entry): seq<Entry> {
    if byId == [] then [e]
    else if byId[0].id == e.id then [MergeEntries(o, byId[0], e)] + byId[1..]
    else [byId[0]] + Absorb(o, byId[1..], e)
  }

  function AbsorbAll(o: Orders, byId: seq<Entry>, es: seq<Entry>): seq<Entry>
    decreases |es|
  {
    if es == [] then byId else Absorb(o, AbsorbAll(o, byId, es[..|es| - 1]), es[|es| - 1])
  }

  function Deduplicated(o: Orders, es: seq<Entry>): seq<Entry> {
    AbsorbAll(o, [], es)
  }

  /** The ids a list adds to those already seen, in first-seen order. */
  function Seen(ids: seq<string>, more: seq<string>): seq<string>
    decreases |more|
  {
    if more == [] then ids
    else
      var init, last := Seen(ids, more[..|more| - 1]), more[|more| - 1];
      if last in init then init else init + [last]
  }

  function FirstSeen(ids: seq<string>): seq<string> {
    Seen([], ids)
  }

  lemma {:induction false} AbsorbIds(o: Orders, byId: seq<Entry>, e: Entry)
    ensures Ids(Absorb(o, byId, e)) == if e.id in Ids(byId) then Ids(byId) else Ids(byId) + [e.id]
  {
    if byId == [] {
      assert Ids([e]) == [e.id] && Ids([]) + [e.id] == [e.id];
    } else {
      IdsCons(byId[0], byId[1..]);
      assert byId == [byId[0]] + byId[1..];
      if byId[0].id == e.id {
        MergeKeepsId(o, byId[0], e);
        IdsCons(MergeEntries(o, byId[0], e), byId[1..]);
      } else {
        AbsorbIds(o, byId[1..], e);
        IdsCons(byId[0], Absorb(o, byId[1..], e));
      }
    }
  }

  lemma IdsCons(e: Entry, es: seq<Entry>)
    ensures Ids([e] + es) == [e.id] + Ids(es)
  {
  }

  lemma {:induction false} AbsorbAllIds(o: Orders, byId: seq<Entry>, es: seq<Entry>)
    ensures Ids(AbsorbAll(o, byId, es)) == Seen(Ids(byId), Ids(es))
    decreases |es|
  {
    if es != [] {
      var n := |es| - 1;
      AbsorbAllIds(o, byId, es[..n]);
      assert Ids(es)[..n] == Ids(es[..n]);
      AbsorbIds(o, AbsorbAll(o, byId, es[..n]), es[n]);
    }
  }

  lemma {:induction false} SeenMeaning(ids: seq<string>, more: seq<string>)
    ensures forall x :: x in Seen(ids, more) <==> x in ids || x in more
    ensures Distinct(ids) ==> Distinct(Seen(ids, more))
    decreases |more|
  {
    if more != [] {
      SeenMeaning(ids, more[..|more| - 1]);
      assert more == more[..|more| - 1] + [more[|more| - 1]];
    }
  }

  /** One entry per id, in first-seen order. */
  lemma OneEntryPerId(o: Orders, es: seq<Entry>)
    ensures Ids(Deduplicated(o, es)) == FirstSeen(Ids(es)) && Distinct(Ids(Deduplicated(o, es)))
  {
    AbsorbAllIds(o, [], es);
    SeenMeaning([], Ids(es));
  }

  lemma SeenOnce(ids: seq<string>, more: seq<string>, x: string)
    ensures Seen(ids, more + [x]) == if x in Seen(ids, more) then Seen(ids, more) else Seen(ids, more) + [x]
  {
    assert (more + [x])[..|more|] == more;
  }

  lemma {:induction false} SeenInStages(ids: seq<string>, more: seq<string>)
    ensures Seen(ids, FirstSeen(more)) == Seen(ids, more)
    decreases |more|
  {
    if more != [] {
      var init, x := more[..|more| - 1], more[|more| - 1];
      SeenInStages(ids, init);
      SeenMeaning([], init);
      SeenMeaning(ids, init);
      SeenOnce(ids, FirstSeen(init), x);
    }
  }

  // ---- one id at a time ----

  /** The entries with an id, in order. */
  function Of(es: seq<Entry>, id: string): seq<Entry> {
    if es == [] then []
    else Of(es[..|es| - 1], id) + if es[|es| - 1].id == id then [es[|es| - 1]] else []
  }

  function Joined(o: Orders, m: Option<Entry>, e: Entry): Option<Entry> {
    Some(if m.Some? then MergeEntries(o, m.value, e) else e)
  }

  /** What becomes of one id's entry as further entries with the id arrive. */
  function Fold(o: Orders, start: Option<Entry>, es: seq<Entry>): Option<Entry> {
    if es == [] then start
    else Joined(o, Fold(o, start, es[..|es| - 1]), es[|es| - 1])
  }

  lemma {:induction false} AbsorbFinds(o: Orders, byId: seq<Entry>, e: Entry, id: string)
    ensures Lookup(Id, Absorb(o, byId, e), id) ==
      if id == e.id then Joined(o, Lookup(Id, byId, id), e) else Lookup(Id, byId, id)
  {
    if byId != [] {
      if byId[0].id == e.id {
        MergeKeepsId(o, byId[0], e);
      } else {
        AbsorbFinds(o, byId[1..], e, id);
      }
    }
  }

  lemma MergeKeepsId(o: Orders, a: Entry, b: Entry)
    ensures MergeEntries(o, a, b).id == a.id
  {
  }

  lemma FoldOnce(o: Orders, start: Option<Entry>, es: seq<Entry>, e: Entry)
    ensures Fold(o, start, es + [e]) == Joined(o, Fold(o, start, es), e)
  {
    assert (es + [e])[..|es|] == es;
  }

  lemma FoldOfNext(o: Orders, start: Option<Entry>, es: seq<Entry>, id: string)
    requires es != []
    ensures var init, e := es[..|es| - 1], es[|es| - 1];
      Fold(o, start, Of(es, id)) ==
      if id == e.id then Joined(o, Fold(o, start, Of(init, id)), e) else Fold(o, start, Of(init, id))
  {
    var init, e := es[..|es| - 1], es[|es| - 1];
    if id == e.id {
      FoldOnce(o, start, Of(init, id), e);
    } else {
      assert Of(init, id) + [] == Of(init, id);
    }
  }

  lemma {:induction false} AbsorbAllFinds(o: Orders, byId: seq<Entry>, es: seq<Entry>, id: string)
    ensures Lookup(Id, AbsorbAll(o, byId, es), id) == Fold(o, Lookup(Id, byId, id), Of(es, id))
    decreases |es|
  {
    if es != [] {
      var init, e := es[..|es| - 1], es[|es| - 1];
      AbsorbAllFinds(o, byId, init, id);
      AbsorbFinds(o, AbsorbAll(o, byId, init), e, id);
      FoldOfNext(o, Lookup(Id, byId, id), es, id);
    }
  }

  lemma DistinctIdsAreKeys(es: seq<Entry>)
    ensures Distinct(Ids(es)) ==> DistinctKeys(Id, es)
  {
    assert forall i | 0 <= i < |es| :: Ids(es)[i] == es[i].id;
  }

  /** A list with distinct ids is determined by their order and by the entry of each. */
  lemma SameById(p: seq<Entry>, q: seq<Entry>)
    requires Ids(p) == Ids(q) && Distinct(Ids(p)) && forall id :: Lookup(Id, p, id) == Lookup(Id, q, id)
    ensures p == q
  {
    DistinctIdsAreKeys(p);
    DistinctIdsAreKeys(q);
    assert |p| == |Ids(p)| == |q|;
    forall i | 0 <= i < |p| ensures p[i] == q[i] {
      assert p[i].id == Ids(p)[i] && q[i].id == Ids(q)[i];
      LookupUnique(Id, p, p[i]);
      LookupUnique(Id, q, q[i]);
    }
  }

  lemma {:induction false} OfConcat(xs: seq<Entry>, ys: seq<Entry>, id: string)
    ensures Of(xs + ys, id) == Of(xs, id) + Of(ys, id)
  {
    if ys == [] {
      assert xs + ys == xs;
    } else {
      assert (xs + ys)[..|xs + ys| - 1] == xs + ys[..|ys| - 1];
      OfConcat(xs, ys[..|ys| - 1], id);
    }
  }

  lemma {:induction false} FoldConcat(o: Orders, start: Option<Entry>, xs: seq<Entry>, ys: seq<Entry>)
    ensures Fold(o, start, xs + ys) == Fold(o, Fold(o, start, xs), ys)
  {
    if ys == [] {
      assert xs + ys == xs;
    } else {
      assert (xs + ys)[..|xs + ys| - 1] == xs + ys[..|ys| - 1];
      FoldConcat(o, start, xs, ys[..|ys| - 1]);
    }
  }

  /** At most the one entry the list holds for the id. */
  lemma {:induction false} OfDistinct(es: seq<Entry>, id: string)
    requires Distinct(Ids(es))
    ensures Of(es, id) == if Lookup(Id, es, id).Some? then [Lookup(Id, es, id).value] else []
  {
    if es != [] {
      var n := |es| - 1;
      assert Ids(es)[..n] == Ids(es[..n]);
      OfDistinct(es[..n], id);
      assert es == es[..n] + [es[n]];
      LookupConcat(Id, es[..n], [es[n]], id);
      LookupFound(Id, es[..n], id);
      forall i | 0 <= i < n ensures es[i].id != es[n].id {
        assert Ids(es)[i] != Ids(es)[n];
      }
    }
  }

  // ---- all fields but the asset types ----

  function Untyped(e: Entry): Entry {
    e.(assetTypes := None)
  }

  lemma UntypedMerge(o: Orders, a: Entry, b: Entry, a': Entry)
    requires Untyped(a) == Untyped(a')
    ensures Untyped(MergeEntries(o, a, b)) == Untyped(MergeEntries(o, a', b))
  {
    assert a.assets == Untyped(a).assets && a'.assets == Untyped(a').assets;
    assert a.tags == Untyped(a).tags && a'.tags == Untyped(a').tags;
    SameScalarsMerge(o, a, b, a');
  }

  lemma SameScalarsMerge(o: Orders, a: Entry, b: Entry, a': Entry)
    requires SameScalars(a, a')
    ensures SameScalars(MergeEntries(o, a, b), MergeEntries(o, a', b))
  {
  }

  lemma UntypedAssociates(o: Orders, a: Entry, b: Entry, c: Entry)
    requires Lawful(o)
    ensures Untyped(MergeEntries(o, MergeEntries(o, a, b), c)) == Untyped(MergeEntries(o, a, MergeEntries(o, b, c)))
  {
    ScalarsAssociate(o, a, b, c);
    TagsAssociate(o, a, b, c);
    AssetsAssociate(o, a, b, c);
  }

  /** Whether the later entries are merged first or one after the other makes no other difference. */
  lemma {:induction false} UntypedFold(o: Orders, x: Entry, ys: seq<Entry>)
    requires Lawful(o) && ys != []
    ensures Fold(o, Some(x), ys).Some? && Fold(o, None, ys).Some?
    ensures Untyped(Fold(o, Some(x), ys).value) == Untyped(MergeEntries(o, x, Fold(o, None, ys).value))
  {
    var init, y := ys[..|ys| - 1], ys[|ys| - 1];
    if init != [] {
      UntypedFold(o, x, init);
      var left, right := Fold(o, Some(x), init).value, Fold(o, None, init).value;
      UntypedMerge(o, left, y, MergeEntries(o, x, right));
      UntypedAssociates(o, x, right, y);
    }
  }

  // ---- the asset types ----

  function AssetsOf(es: seq<Entry>): seq<Asset> {
    if es == [] then [] else AssetsOf(es[..|es| - 1]) + ListOf(es[|es| - 1].assets)
  }

  function TypesOf(es: seq<Entry>): seq<string> {
    if es == [] then [] else TypesOf(es[..|es| - 1]) + ListOf(es[|es| - 1].assetTypes)
  }

  lemma {:induction false} ListsConcat(xs: seq<Entry>, ys: seq<Entry>)
    ensures AssetsOf(xs + ys) == AssetsOf(xs) + AssetsOf(ys) && TypesOf(xs + ys) == TypesOf(xs) + TypesOf(ys)
  {
    if ys == [] {
      assert xs + ys == xs;
    } else {
      var init, y := ys[..|ys| - 1], ys[|ys| - 1];
      assert (xs + ys)[..|xs + ys| - 1] == xs + init && (xs + ys)[|xs + ys| - 1] == y;
      ListsConcat(xs, init);
      Regroup(AssetsOf(xs), AssetsOf(init), ListOf(y.assets));
      Regroup(TypesOf(xs), TypesOf(init), ListOf(y.assetTypes));
    }
  }

  ghost predicate LookAlike(s: seq<Asset>, t: seq<Asset>) {
    forall k :: Lookup(Key, s, k) == Lookup(Key, t, k)
  }

  lemma ConcatLooksAlike(s: seq<Asset>, t: seq<Asset>, s': seq<Asset>, t': seq<Asset>)
    requires LookAlike(s, s') && LookAlike(t, t')
    ensures LookAlike(s + t, s' + t')
  {
    forall k ensures Lookup(Key, s + t, k) == Lookup(Key, s' + t', k) {
      LookupConcat(Key, s, t, k);
      LookupConcat(Key, s', t', k);
    }
  }

  lemma MergedLooksAlike(o: Orders, a: Entry, b: Entry)
    requires Lawful(o)
    ensures LookAlike(ListOf(MergeEntries(o, a, b).assets), ListOf(a.assets) + ListOf(b.assets))
  {
    MergeNormalizesNothing(o, a, b);
    MergedMeaning(o.locale, Key, ListOf(a.assets) + ListOf(b.assets));
  }

  /** The assets of a fold find what all the assets find. */
  lemma {:induction false} FoldLooksUp(o: Orders, es: seq<Entry>)
    requires Lawful(o) && es != []
    ensures Fold(o, None, es).Some? && LookAlike(ListOf(Fold(o, None, es).value.assets), AssetsOf(es))
  {
    var init, e := es[..|es| - 1], es[|es| - 1];
    if init == [] {
      assert AssetsOf(es) == ListOf(e.assets);
    } else {
      FoldLooksUp(o, init);
      var m := Fold(o, None, init).value;
      MergedLooksAlike(o, m, e);
      ConcatLooksAlike(ListOf(m.assets), ListOf(e.assets), AssetsOf(init), ListOf(e.assets));
    }
  }

  lemma LookAlikeWinners(s: seq<Asset>, t: seq<Asset>, x: string)
    requires LookAlike(s, t)
    ensures WinningKind(s, x) <==> WinningKind(t, x)
  {
  }

  /** The types of a fold: of several entries those declared and those of the winning assets, of one its own. */
  lemma {:induction false} FoldTypes(o: Orders, es: seq<Entry>, x: string)
    requires Lawful(o) && es != [] && Fold(o, None, es).Some?
    ensures |es| == 1 ==> ListOf(Fold(o, None, es).value.assetTypes) == TypesOf(es)
    ensures |es| >= 2 ==> (x in ListOf(Fold(o, None, es).value.assetTypes)
      <==> !Blank(x) && (x in TypesOf(es) || WinningKind(AssetsOf(es), x)))
  {
    var init, e := es[..|es| - 1], es[|es| - 1];
    if init == [] {
      assert TypesOf(es) == ListOf(e.assetTypes);
    } else {
      FoldLooksUp(o, init);
      FoldTypes(o, init, x);
      var m := Fold(o, None, init).value;
      MergedTypesMember(o, m, e, x);
      ConcatLooksAlike(ListOf(m.assets), ListOf(e.assets), AssetsOf(init), ListOf(e.assets));
      LookAlikeWinners(ListOf(m.assets) + ListOf(e.assets), AssetsOf(es), x);
      if WinningKind(AssetsOf(init), x) {
        WinnersStay(AssetsOf(init), ListOf(e.assets), x);
      }
    }
  }

  /** The later entries on their own give a type that all the entries together do not. */
  ghost predicate Hidden(xs: seq<Entry>, ys: seq<Entry>, x: string) {
    && !Blank(x) && WinningKind(AssetsOf(ys), x)
    && x !in TypesOf(xs + ys) && !WinningKind(AssetsOf(xs + ys), x)
  }

  /** One id: merging the later entries first changes a type exactly when it is hidden. */
  lemma GroupingShowsHidden(o: Orders, xs: seq<Entry>, ys: seq<Entry>, x: string)
    requires Lawful(o) && xs != [] && |ys| >= 2
    requires Fold(o, None, xs).Some? && Fold(o, None, ys).Some? && Fold(o, None, xs + ys).Some?
    ensures
      var left := Fold(o, None, xs + ys).value;
      var right := MergeEntries(o, Fold(o, None, xs).value, Fold(o, None, ys).value);
      (x in ListOf(left.assetTypes) <==> x in ListOf(right.assetTypes)) <==> !Hidden(xs, ys, x)
  {
    var a, b := Fold(o, None, xs).value, Fold(o, None, ys).value;
    ListsConcat(xs, ys);
    FoldTypes(o, xs, x);
    FoldTypes(o, ys, x);
    FoldTypes(o, xs + ys, x);
    FoldLooksUp(o, xs);
    FoldLooksUp(o, ys);
    MergedTypesMember(o, a, b, x);
    ConcatLooksAlike(ListOf(a.assets), ListOf(b.assets), AssetsOf(xs), AssetsOf(ys));
    LookAlikeWinners(ListOf(a.assets) + ListOf(b.assets), AssetsOf(xs + ys), x);
    if WinningKind(AssetsOf(xs), x) {
      WinnersStay(AssetsOf(xs), AssetsOf(ys), x);
    }
  }

  ghost predicate HidesNothing(xs: seq<Entry>, ys: seq<Entry>) {
    forall x :: !Hidden(xs, ys, x)
  }

  /** The last step of a fold is a merge. */
  lemma FoldEnds(o: Orders, es: seq<Entry>) returns (m: Entry)
    requires |es| >= 2
    ensures Fold(o, None, es) == Some(MergeEntries(o, m, es[|es| - 1]))
  {
    var init := es[..|es| - 1];
    assert Fold(o, None, init).Some?;
    m := Fold(o, None, init).value;
  }

  lemma EqualByTypes(l: Entry, r: Entry)
    requires Untyped(l) == Untyped(r)
    ensures l == r <==> l.assetTypes == r.assetTypes
  {
    assert l == Untyped(l).(assetTypes := l.assetTypes) && r == Untyped(r).(assetTypes := r.assetTypes);
  }

  /** One id: its entry is the same either way exactly when nothing is hidden. */
  lemma GroupingAgreesExactly(o: Orders, xs: seq<Entry>, ys: seq<Entry>)
    requires Lawful(o) && xs != [] && |ys| >= 2
    ensures Fold(o, None, xs).Some? && Fold(o, None, ys).Some?
    ensures Fold(o, None, xs + ys) == Some(MergeEntries(o, Fold(o, None, xs).value, Fold(o, None, ys).value))
      <==> HidesNothing(xs, ys)
  {
    FoldLooksUp(o, xs);
    FoldLooksUp(o, ys);
    FoldLooksUp(o, xs + ys);
    var a, b, left := Fold(o, None, xs).value, Fold(o, None, ys).value, Fold(o, None, xs + ys).value;
    FoldConcat(o, None, xs, ys);
    UntypedFold(o, a, ys);
    EqualByTypes(left, MergeEntries(o, a, b));
    TypesAgreeExactly(o, xs, ys, left.assetTypes, MergeEntries(o, a, b).assetTypes);
  }

  lemma TypesAgreeExactly(o: Orders, xs: seq<Entry>, ys: seq<Entry>,
                          left: Option<seq<string>>, right: Option<seq<string>>)
    requires Lawful(o) && xs != [] && |ys| >= 2
    requires Fold(o, None, xs).Some? && Fold(o, None, ys).Some? && Fold(o, None, xs + ys).Some?
    requires left == Fold(o, None, xs + ys).value.assetTypes
    requires right == MergeEntries(o, Fold(o, None, xs).value, Fold(o, None, ys).value).assetTypes
    ensures left == right <==> HidesNothing(xs, ys)
  {
    var m := FoldEnds(o, xs + ys);
    TypesAreCanonical(o, m, (xs + ys)[|xs + ys| - 1], Fold(o, None, xs).value, Fold(o, None, ys).value);
    forall x ensures (x in ListOf(left) <==> x in ListOf(right)) <==> !Hidden(xs, ys, x) {
      GroupingShowsHidden(o, xs, ys, x);
    }
    SameMembersExactly(left, right, x => Hidden(xs, ys, x));
  }

  // ---- deduplicating parts first ----

  /** Either way one id's entry is the same. */
  ghost predicate Agrees(o: Orders, xs: seq<Entry>, ys: seq<Entry>, id: string) {
    Lookup(Id, Deduplicated(o, xs + ys), id)
    == Lookup(Id, Deduplicated(o, Deduplicated(o, xs) + Deduplicated(o, ys)), id)
  }

  /** What the exact condition asks of one id. */
  ghost predicate IdHidesNothing(xs: seq<Entry>, ys: seq<Entry>, id: string) {
    Of(xs, id) != [] && |Of(ys, id)| >= 2 ==> HidesNothing(Of(xs, id), Of(ys, id))
  }

  function AsList(m: Option<Entry>): seq<Entry> {
    if m.Some? then [m.value] else []
  }

  lemma FoldOfTwo(o: Orders, a: Option<Entry>, b: Option<Entry>)
    ensures Fold(o, None, AsList(a) + AsList(b)) ==
      if a.None? then b else if b.None? then a else Some(MergeEntries(o, a.value, b.value))
  {
    if a.Some? && b.Some? {
      FoldOnce(o, None, [a.value], b.value);
      FoldOnce(o, None, [], a.value);
    } else if a.Some? {
      FoldOnce(o, None, [], a.value);
    } else if b.Some? {
      FoldOnce(o, None, [], b.value);
    }
  }

  lemma BothWaysOf(o: Orders, xs: seq<Entry>, ys: seq<Entry>, id: string)
    ensures Lookup(Id, Deduplicated(o, xs + ys), id) == Fold(o, None, Of(xs, id) + Of(ys, id))
    ensures Lookup(Id, Deduplicated(o, Deduplicated(o, xs) + Deduplicated(o, ys)), id)
      == Fold(o, None, AsList(Fold(o, None, Of(xs, id))) + AsList(Fold(o, None, Of(ys, id))))
  {
    var dx, dy := Deduplicated(o, xs), Deduplicated(o, ys);
    OfConcat(xs, ys, id);
    OfConcat(dx, dy, id);
    AbsorbAllFinds(o, [], xs + ys, id);
    AbsorbAllFinds(o, [], dx + dy, id);
    AbsorbAllFinds(o, [], xs, id);
    AbsorbAllFinds(o, [], ys, id);
    OneEntryPerId(o, xs);
    OneEntryPerId(o, ys);
    OfDistinct(dx, id);
    OfDistinct(dy, id);
  }

  lemma AgreesExactly(o: Orders, xs: seq<Entry>, ys: seq<Entry>, id: string)
    requires Lawful(o)
    ensures Agrees(o, xs, ys, id) <==> IdHidesNothing(xs, ys, id)
  {
    var x, y := Of(xs, id), Of(ys, id);
    BothWaysOf(o, xs, ys, id);
    FoldOfTwo(o, Fold(o, None, x), Fold(o, None, y));
    if x == [] {
      assert x + y == y;
    } else if y == [] {
      assert x + y == x;
    } else if |y| == 1 {
      OneLaterEntry(o, x, y);
    } else {
      GroupingAgreesExactly(o, x, y);
    }
  }

  lemma OneLaterEntry(o: Orders, x: seq<Entry>, y: seq<Entry>)
    requires x != [] && |y| == 1
    ensures Fold(o, None, x).Some? && Fold(o, None, y).Some?
    ensures Fold(o, None, x + y) == Some(MergeEntries(o, Fold(o, None, x).value, Fold(o, None, y).value))
  {
    assert y == [y[0]] && [] + y == y;
    FoldOnce(o, None, x, y[0]);
    FoldOnce(o, None, [], y[0]);
  }

  lemma SameIds(o: Orders, xs: seq<Entry>, ys: seq<Entry>)
    ensures Ids(Deduplicated(o, xs + ys)) == Ids(Deduplicated(o, Deduplicated(o, xs) + Deduplicated(o, ys)))
    ensures Distinct(Ids(Deduplicated(o, xs + ys)))
  {
    var dx, dy := Deduplicated(o, xs), Deduplicated(o, ys);
    OneEntryPerId(o, xs);
    OneEntryPerId(o, ys);
    OneEntryPerId(o, xs + ys);
    OneEntryPerId(o, dx + dy);
    IdsConcat(xs, ys);
    IdsConcat(dx, dy);
    FirstSeenOfParts(Ids(xs), Ids(ys));
  }

  lemma IdsConcat(xs: seq<Entry>, ys: seq<Entry>)
    ensures Ids(xs + ys) == Ids(xs) + Ids(ys)
  {
  }

  lemma FirstSeenOfParts(a: seq<string>, b: seq<string>)
    ensures FirstSeen(FirstSeen(a) + FirstSeen(b)) == FirstSeen(a + b)
  {
    SeenConcat([], a, b);
    SeenConcat([], FirstSeen(a), FirstSeen(b));
    SeenInStages([], a);
    SeenInStages(FirstSeen(a), b);
  }

  lemma {:induction false} SeenConcat(ids: seq<string>, a: seq<string>, b: seq<string>)
    ensures Seen(ids, a + b) == Seen(Seen(ids, a), b)
    decreases |b|
  {
    if b == [] {
      assert a + b == a;
    } else {
      assert (a + b)[..|a + b| - 1] == a + b[..|b| - 1];
      SeenConcat(ids, a, b[..|b| - 1]);
    }
  }

  /** The parts of a list may be deduplicated first exactly when for no id with an entry in the first part and
      several in the second the second part hides a type. */
  lemma DeduplicationIsAHomomorphismExactly(o: Orders, xs: seq<Entry>, ys: seq<Entry>)
    requires Lawful(o)
    ensures Deduplicated(o, xs + ys) == Deduplicated(o, Deduplicated(o, xs) + Deduplicated(o, ys))
      <==> forall id :: IdHidesNothing(xs, ys, id)
  {
    SameIds(o, xs, ys);
    forall id ensures Agrees(o, xs, ys, id) <==> IdHidesNothing(xs, ys, id) {
      AgreesExactly(o, xs, ys, id);
    }
    AgreeingMeansSame(o, xs, ys);
  }

  lemma AgreeingMeansSame(o: Orders, xs: seq<Entry>, ys: seq<Entry>)
    requires Ids(Deduplicated(o, xs + ys)) == Ids(Deduplicated(o, Deduplicated(o, xs) + Deduplicated(o, ys)))
    requires Distinct(Ids(Deduplicated(o, xs + ys)))
    ensures Deduplicated(o, xs + ys) == Deduplicated(o, Deduplicated(o, xs) + Deduplicated(o, ys))
      <==> forall id :: Agrees(o, xs, ys, id)
  {
    var p, q := Deduplicated(o, xs + ys), Deduplicated(o, Deduplicated(o, xs) + Deduplicated(o, ys));
    if forall id :: Agrees(o, xs, ys, id) {
      forall id ensures Lookup(Id, p, id) == Lookup(Id, q, id) {
        assert Agrees(o, xs, ys, id);
      }
      SameById(p, q);
    }
  }

  /** Deduplicating again changes nothing. */
  lemma DeduplicatedIsFixed(o: Orders, xs: seq<Entry>)
    requires Lawful(o)
    ensures Deduplicated(o, Deduplicated(o, xs)) == Deduplicated(o, xs)
  {
    assert xs + [] == xs && Deduplicated(o, xs) + Deduplicated(o, []) == Deduplicated(o, xs);
    assert forall id :: Of([], id) == [];
    DeduplicationIsAHomomorphismExactly(o, xs, []);
  }

  // ---- colons ----

  predicate AllColonFree(es: seq<Entry>) {
    forall i | 0 <= i < |es| :: ColonFree(es[i])
  }

  lemma {:induction false} OfIsColonFree(es: seq<Entry>, id: string)
    requires AllColonFree(es)
    ensures KindsAreColonFree(AssetsOf(Of(es, id)))
  {
    if es != [] {
      var init, e := es[..|es| - 1], es[|es| - 1];
      OfIsColonFree(init, id);
      assert ColonFree(e);
      if e.id == id {
        assert (Of(init, id) + [e])[..|Of(init, id)|] == Of(init, id);
      } else {
        assert Of(init, id) + [] == Of(init, id);
      }
    }
  }

  /** Without colons in the asset types parts may always be deduplicated first. */
  lemma DeduplicationIsAHomomorphism(o: Orders, xs: seq<Entry>, ys: seq<Entry>)
    requires Lawful(o) && AllColonFree(xs) && AllColonFree(ys)
    ensures Deduplicated(o, xs + ys) == Deduplicated(o, Deduplicated(o, xs) + Deduplicated(o, ys))
  {
    forall id ensures IdHidesNothing(xs, ys, id) {
      var x, y := Of(xs, id), Of(ys, id);
      OfIsColonFree(xs, id);
      OfIsColonFree(ys, id);
      ListsConcat(x, y);
      forall k | WinningKind(AssetsOf(y), k) ensures WinningKind(AssetsOf(x + y), k) {
        ColonFreeWinners(AssetsOf(x), AssetsOf(y), k);
      }
    }
    DeduplicationIsAHomomorphismExactly(o, xs, ys);
  }

  lemma {:induction false} OfAll(es: seq<Entry>, id: string)
    requires forall i | 0 <= i < |es| :: es[i].id == id
    ensures Of(es, id) == es
  {
    if es != [] {
      OfAll(es[..|es| - 1], id);
    }
  }

  lemma ListsOfOne(e: Entry)
    ensures AssetsOf([e]) == ListOf(e.assets) && TypesOf([e]) == ListOf(e.assetTypes)
  {
    assert [e][..0] == [];
  }

  /** With colons they may not: the second of two lists hides a type behind the first. */
  lemma DeduplicatingPartsCanDiffer(o: Orders)
    requires Lawful(o)
    ensures exists a, b, c ::
      Deduplicated(o, [a] + [b, c]) != Deduplicated(o, Deduplicated(o, [a]) + Deduplicated(o, [b, c]))
  {
    var a, b, c := Bare(Some([COLON_LEFT])), Bare(Some([COLON_RIGHT])), Bare(None);
    OfAll([a], "id");
    OfAll([b, c], "id");
    SecondListHides(a, b, c);
    assert !IdHidesNothing([a], [b, c], "id");
    DeduplicationIsAHomomorphismExactly(o, [a], [b, c]);
  }

  lemma SecondListHides(a: Entry, b: Entry, c: Entry)
    requires a == Bare(Some([COLON_LEFT])) && b == Bare(Some([COLON_RIGHT])) && c == Bare(None)
    ensures Hidden([a], [b, c], "a:b")
  {
    ListsOfThree(a, b, c);
    ColonsShareAKey();
  }

  lemma ListsOfThree(a: Entry, b: Entry, c: Entry)
    requires a == Bare(Some([COLON_LEFT])) && b == Bare(Some([COLON_RIGHT])) && c == Bare(None)
    ensures AssetsOf([b, c]) == [COLON_RIGHT] && AssetsOf([a] + [b, c]) == [COLON_LEFT, COLON_RIGHT]
    ensures TypesOf([a] + [b, c]) == []
  {
    ListsOfTwo(b, c);
    ListsOfOne(a);
    ListsConcat([a], [b, c]);
    assert ListOf(a.assets) + [COLON_RIGHT] == [COLON_LEFT, COLON_RIGHT];
    assert TypesOf([a]) + TypesOf([b, c]) == [];
  }

  lemma ListsOfTwo(b: Entry, c: Entry)
    requires b == Bare(Some([COLON_RIGHT])) && c == Bare(None)
    ensures AssetsOf([b, c]) == [COLON_RIGHT] && TypesOf([b, c]) == []
  {
    assert [b, c] == [b] + [c];
    ListsOfOne(b);
    ListsOfOne(c);
    ListsConcat([b], [c]);
    assert [COLON_RIGHT] + [] == [COLON_RIGHT];
  }
}
