/** What each entry of a deduplicated list is, in terms of the list it was made from, and the loop that
    makes it. */
module RegistryStashes {
  import opened Basics
  import opened KeyedMerge
  import opened RegistryMerge
  import opened RegistryDedup

  // ---- what an entry is made of ----

  ghost predicate IsFirst(es: seq<Entry>, i: int, id: string) {
    0 <= i < |es| && es[i].id == id && forall j :: 0 <= j < i ==> es[j].id != id
  }

  ghost predicate Occurs(es: seq<Entry>, id: string) {
    exists j :: 0 <= j < |es| && es[j].id == id
  }

  ghost predicate OccursTwice(es: seq<Entry>, id: string) {
    exists i, j :: 0 <= i < j < |es| && es[i].id == id && es[j].id == id
  }

  /** The value is the one that the first entry with the id to give one gives; absent if none does. */
  ghost predicate IsFirstGiven(v: Option<string>, es: seq<Entry>, id: string, field: Entry -> Option<string>) {
    match v
    case None => forall j :: 0 <= j < |es| && es[j].id == id ==> field(es[j]) == None
    case Some(_) => exists j :: IsFirstToGive(es, j, id, field) && field(es[j]) == v
  }

  ghost predicate IsFirstToGive(es: seq<Entry>, j: int, id: string, field: Entry -> Option<string>) {
    && 0 <= j < |es| && es[j].id == id && field(es[j]).Some?
    && forall k :: 0 <= k < j && es[k].id == id ==> field(es[k]) == None
  }

  const DESCRIPTION := (e: Entry) => e.description
  const HOMEPAGE := (e: Entry) => e.homepage
  const AUTHOR := (e: Entry) => e.author
  const LICENSE := (e: Entry) => e.license
  const LATEST_VERSION := (e: Entry) => e.latestVersion

  /** The identity of the first entry with the id, and of every other field the first value given. */
  ghost predicate HasFirstFields(e: Entry, es: seq<Entry>) {
    && (exists i :: IsFirst(es, i, e.id) && e.name == es[i].name && e.ref == es[i].ref && e.source == es[i].source)
    && IsFirstGiven(e.description, es, e.id, DESCRIPTION) && IsFirstGiven(e.homepage, es, e.id, HOMEPAGE)
    && IsFirstGiven(e.author, es, e.id, AUTHOR) && IsFirstGiven(e.license, es, e.id, LICENSE)
    && IsFirstGiven(e.latestVersion, es, e.id, LATEST_VERSION)
  }

  ghost predicate SomeTags(es: seq<Entry>, id: string, x: string) {
    exists j :: 0 <= j < |es| && es[j].id == id && x in ListOf(es[j].tags)
  }

  ghost predicate SomeDeclares(es: seq<Entry>, id: string, x: string) {
    exists j :: 0 <= j < |es| && es[j].id == id && x in ListOf(es[j].assetTypes)
  }

  /** An entry that stands for several has the non-blank tags of all, the first asset of each key, and the
      non-blank types that some entry declares or some asset it kept has; no list is there but empty. */
  ghost predicate HasAllLists(e: Entry, es: seq<Entry>) {
    && e.tags != Some([]) && e.assets != Some([]) && e.assetTypes != Some([])
    && (forall x :: x in ListOf(e.tags) <==> !Blank(x) && SomeTags(es, e.id, x))
    && LookAlike(ListOf(e.assets), AssetsOf(Of(es, e.id)))
    && (forall x :: x in ListOf(e.assetTypes)
          <==> !Blank(x) && (SomeDeclares(es, e.id, x) || exists a :: a in ListOf(e.assets) && a.kind == x))
  }

  // ---- one entry more ----

  lemma FirstGivenNext(v: Option<string>, es: seq<Entry>, id: string, field: Entry -> Option<string>, x: Entry)
    requires IsFirstGiven(v, es, id, field)
    ensures x.id != id || v.Some? ==> IsFirstGiven(v, es + [x], id, field)
    ensures x.id == id && v.None? ==> IsFirstGiven(field(x), es + [x], id, field)
  {
    var more := es + [x];
    if v.Some? {
      var j :| IsFirstToGive(es, j, id, field) && field(es[j]) == v;
      assert more[j] == es[j] && IsFirstToGive(more, j, id, field);
    } else if x.id == id && field(x).Some? {
      assert IsFirstToGive(more, |es|, id, field);
    }
  }

  lemma NoneGivenYet(es: seq<Entry>, id: string, field: Entry -> Option<string>)
    requires !Occurs(es, id)
    ensures IsFirstGiven(None, es, id, field)
  {
  }

  lemma OtherIdNext(e: Entry, es: seq<Entry>, x: Entry)
    requires HasFirstFields(e, es) && x.id != e.id
    ensures HasFirstFields(e, es + [x])
  {
    var i :| IsFirst(es, i, e.id) && e.name == es[i].name && e.ref == es[i].ref && e.source == es[i].source;
    assert (es + [x])[i] == es[i] && IsFirst(es + [x], i, e.id);
    FirstGivenNext(e.description, es, e.id, DESCRIPTION, x);
    FirstGivenNext(e.homepage, es, e.id, HOMEPAGE, x);
    FirstGivenNext(e.author, es, e.id, AUTHOR, x);
    FirstGivenNext(e.license, es, e.id, LICENSE, x);
    FirstGivenNext(e.latestVersion, es, e.id, LATEST_VERSION, x);
  }

  lemma FirstOfItsId(es: seq<Entry>, x: Entry)
    requires !Occurs(es, x.id)
    ensures HasFirstFields(x, es + [x])
  {
    assert IsFirst(es + [x], |es|, x.id);
    NoneGivenYet(es, x.id, DESCRIPTION);
    NoneGivenYet(es, x.id, HOMEPAGE);
    NoneGivenYet(es, x.id, AUTHOR);
    NoneGivenYet(es, x.id, LICENSE);
    NoneGivenYet(es, x.id, LATEST_VERSION);
    FirstGivenNext(None, es, x.id, DESCRIPTION, x);
    FirstGivenNext(None, es, x.id, HOMEPAGE, x);
    FirstGivenNext(None, es, x.id, AUTHOR, x);
    FirstGivenNext(None, es, x.id, LICENSE, x);
    FirstGivenNext(None, es, x.id, LATEST_VERSION, x);
  }

  lemma MergedHasFirstFields(o: Orders, m: Entry, es: seq<Entry>, x: Entry)
    requires HasFirstFields(m, es) && x.id == m.id
    ensures HasFirstFields(MergeEntries(o, m, x), es + [x])
  {
    var i :| IsFirst(es, i, m.id) && m.name == es[i].name && m.ref == es[i].ref && m.source == es[i].source;
    assert (es + [x])[i] == es[i] && IsFirst(es + [x], i, m.id);
    FirstGivenNext(m.description, es, m.id, DESCRIPTION, x);
    FirstGivenNext(m.homepage, es, m.id, HOMEPAGE, x);
    FirstGivenNext(m.author, es, m.id, AUTHOR, x);
    FirstGivenNext(m.license, es, m.id, LICENSE, x);
    FirstGivenNext(m.latestVersion, es, m.id, LATEST_VERSION, x);
  }

  /** What has become of the entries with the id. */
  ghost predicate IsFolded(m: Option<Entry>, es: seq<Entry>, id: string) {
    if Occurs(es, id) then m.Some? && m.value.id == id && HasFirstFields(m.value, es) else m.None?
  }

  lemma FoldedNext(o: Orders, m: Option<Entry>, es: seq<Entry>, x: Entry, id: string)
    requires IsFolded(m, es, id)
    ensures IsFolded(if x.id == id then Joined(o, m, x) else m, es + [x], id)
  {
    OccursNext(es, x, id);
    if x.id == id {
      if m.Some? {
        MergeKeepsId(o, m.value, x);
        MergedHasFirstFields(o, m.value, es, x);
      } else {
        FirstOfItsId(es, x);
      }
    } else if m.Some? {
      OtherIdNext(m.value, es, x);
    }
  }

  /** The entry folded from those of one id has the first fields of the list. */
  lemma {:induction false} FoldHasFirstFields(o: Orders, es: seq<Entry>, id: string)
    ensures IsFolded(Fold(o, None, Of(es, id)), es, id)
  {
    if es != [] {
      var init, x := es[..|es| - 1], es[|es| - 1];
      FoldHasFirstFields(o, init, id);
      FoldOfNext(o, None, es, id);
      FoldedNext(o, Fold(o, None, Of(init, id)), init, x, id);
      assert es == init + [x];
    }
  }

  lemma OccursNext(es: seq<Entry>, x: Entry, id: string)
    ensures Occurs(es + [x], id) <==> Occurs(es, id) || x.id == id
  {
    var more := es + [x];
    if Occurs(es, id) {
      var j :| 0 <= j < |es| && es[j].id == id;
      assert more[j].id == id;
    }
    if x.id == id {
      assert more[|es|].id == id;
    }
  }

  // ---- the lists of an entry that stands for several ----

  function TagsOf(es: seq<Entry>): seq<string> {
    if es == [] then [] else TagsOf(es[..|es| - 1]) + ListOf(es[|es| - 1].tags)
  }

  lemma {:induction false} FoldTags(o: Orders, es: seq<Entry>, x: string)
    requires Lawful(o) && es != []
    ensures Fold(o, None, es).Some?
    ensures |es| == 1 ==> ListOf(Fold(o, None, es).value.tags) == TagsOf(es)
    ensures |es| >= 2 ==> (x in ListOf(Fold(o, None, es).value.tags) <==> !Blank(x) && x in TagsOf(es))
  {
    var init, e := es[..|es| - 1], es[|es| - 1];
    if init == [] {
      assert TagsOf(es) == ListOf(e.tags);
    } else {
      FoldTags(o, init, x);
      MergeStringsMember(o, ListOf(Fold(o, None, init).value.tags) + ListOf(e.tags), x);
    }
  }

  lemma {:induction false} MembersOf(es: seq<Entry>, id: string, x: string)
    ensures x in TagsOf(Of(es, id)) <==> SomeTags(es, id, x)
    ensures x in TypesOf(Of(es, id)) <==> SomeDeclares(es, id, x)
  {
    if es != [] {
      var init, e := es[..|es| - 1], es[|es| - 1];
      MembersOf(init, id, x);
      SomeNext(init, e, id, x);
      assert es == init + [e];
      if e.id == id {
        ListsNext(Of(init, id), e);
      } else {
        assert Of(init, id) + [] == Of(init, id);
      }
    }
  }

  lemma ListsNext(es: seq<Entry>, e: Entry)
    ensures TagsOf(es + [e]) == TagsOf(es) + ListOf(e.tags)
    ensures TypesOf(es + [e]) == TypesOf(es) + ListOf(e.assetTypes)
  {
    assert (es + [e])[..|es|] == es;
  }

  lemma SomeNext(es: seq<Entry>, e: Entry, id: string, x: string)
    ensures SomeTags(es + [e], id, x) <==> SomeTags(es, id, x) || (e.id == id && x in ListOf(e.tags))
    ensures SomeDeclares(es + [e], id, x) <==> SomeDeclares(es, id, x) || (e.id == id && x in ListOf(e.assetTypes))
  {
    var more := es + [e];
    assert forall j :: 0 <= j < |es| ==> more[j] == es[j];
    assert more[|es|] == e;
  }

  lemma {:induction false} SeveralOf(es: seq<Entry>, id: string)
    ensures |Of(es, id)| >= 1 <==> Occurs(es, id)
    ensures |Of(es, id)| >= 2 <==> OccursTwice(es, id)
  {
    if es != [] {
      var init, e := es[..|es| - 1], es[|es| - 1];
      SeveralOf(init, id);
      assert es == init + [e];
      OccursNext(init, e, id);
      TwiceNext(init, e, id);
    }
  }

  lemma TwiceNext(es: seq<Entry>, e: Entry, id: string)
    ensures OccursTwice(es + [e], id) <==> OccursTwice(es, id) || (e.id == id && Occurs(es, id))
  {
    var more := es + [e];
    assert forall j :: 0 <= j < |es| ==> more[j] == es[j];
    if e.id == id && Occurs(es, id) {
      var j :| 0 <= j < |es| && es[j].id == id;
      assert more[j].id == id && more[|es|].id == id;
    }
    if OccursTwice(es, id) {
      var i, j :| 0 <= i < j < |es| && es[i].id == id && es[j].id == id;
      assert more[i].id == id && more[j].id == id;
    }
  }

  lemma {:induction false} FoldKeysDistinct(o: Orders, es: seq<Entry>)
    requires Lawful(o) && |es| >= 2
    ensures Fold(o, None, es).Some? && DistinctKeys(Key, ListOf(Fold(o, None, es).value.assets))
  {
    var init, e := es[..|es| - 1], es[|es| - 1];
    FoldTags(o, init, "");
    var m := Fold(o, None, init).value;
    MergeNormalizesNothing(o, m, e);
    MergedMeaning(o.locale, Key, ListOf(m.assets) + ListOf(e.assets));
  }

  lemma WinningIsPresent(s: seq<Asset>, x: string)
    requires DistinctKeys(Key, s)
    ensures WinningKind(s, x) <==> exists a :: a in s && a.kind == x
  {
    forall a ensures a in s <==> Lookup(Key, s, Key(a)) == Some(a) {
      LookupUnique(Key, s, a);
    }
  }

  lemma FoldedTags(o: Orders, es: seq<Entry>, id: string, x: string)
    requires Lawful(o) && OccursTwice(es, id)
    ensures var m := Fold(o, None, Of(es, id));
      m.Some? && (x in ListOf(m.value.tags) <==> !Blank(x) && SomeTags(es, id, x))
  {
    SeveralOf(es, id);
    FoldTags(o, Of(es, id), x);
    MembersOf(es, id, x);
  }

  lemma FoldedTypes(o: Orders, es: seq<Entry>, id: string, x: string)
    requires Lawful(o) && OccursTwice(es, id)
    ensures var m := Fold(o, None, Of(es, id));
      m.Some? && (x in ListOf(m.value.assetTypes)
                  <==> !Blank(x) && (SomeDeclares(es, id, x) || exists a :: a in ListOf(m.value.assets) && a.kind == x))
  {
    var fs := Of(es, id);
    SeveralOf(es, id);
    FoldLooksUp(o, fs);
    FoldKeysDistinct(o, fs);
    FoldTypes(o, fs, x);
    MembersOf(es, id, x);
    LookAlikeWinners(ListOf(Fold(o, None, fs).value.assets), AssetsOf(fs), x);
    WinningIsPresent(ListOf(Fold(o, None, fs).value.assets), x);
  }

  lemma FoldHasNoEmptyList(o: Orders, es: seq<Entry>)
    requires Lawful(o) && |es| >= 2 && Fold(o, None, es).Some?
    ensures var e := Fold(o, None, es).value; e.tags != Some([]) && e.assets != Some([]) && e.assetTypes != Some([])
  {
    var init := es[..|es| - 1];
    FoldTags(o, init, "");
    MergeNormalizesNothing(o, Fold(o, None, init).value, es[|es| - 1]);
  }

  lemma FoldHasAllLists(o: Orders, es: seq<Entry>, id: string, e: Entry)
    requires Lawful(o) && OccursTwice(es, id) && Fold(o, None, Of(es, id)) == Some(e) && e.id == id
    ensures HasAllLists(e, es)
  {
    SeveralOf(es, id);
    FoldLooksUp(o, Of(es, id));
    FoldHasNoEmptyList(o, Of(es, id));
    forall x ensures x in ListOf(e.tags) <==> !Blank(x) && SomeTags(es, id, x) {
      FoldedTags(o, es, id, x);
    }
    forall x ensures x in ListOf(e.assetTypes)
      <==> !Blank(x) && (SomeDeclares(es, id, x) || exists a :: a in ListOf(e.assets) && a.kind == x) {
      FoldedTypes(o, es, id, x);
    }
  }

  /** What the entry of an id is: the input's own one if it occurs once, else merged field by field. */
  ghost predicate StandsForItsId(e: Entry, es: seq<Entry>) {
    && HasFirstFields(e, es)
    && if OccursTwice(es, e.id) then HasAllLists(e, es) else e in es
  }

  lemma EachStandsForItsId(o: Orders, es: seq<Entry>, e: Entry)
    requires Lawful(o) && e in Deduplicated(o, es)
    ensures StandsForItsId(e, es)
  {
    var d := Deduplicated(o, es);
    OneEntryPerId(o, es);
    DistinctIdsAreKeys(d);
    LookupUnique(Id, d, e);
    AbsorbAllFinds(o, [], es, e.id);
    FoldHasFirstFields(o, es, e.id);
    if OccursTwice(es, e.id) {
      FoldHasAllLists(o, es, e.id, e);
    } else {
      SeveralOf(es, e.id);
      OfIsFrom(es, e.id);
      assert Of(es, e.id)[..0] == [];
    }
  }

  lemma {:induction false} OfIsFrom(es: seq<Entry>, id: string)
    ensures forall k :: 0 <= k < |Of(es, id)| ==> Of(es, id)[k] in es
  {
    if es != [] {
      OfIsFrom(es[..|es| - 1], id);
    }
  }

  // ---- the loop over the map ----

  lemma {:induction false} AbsorbAt(o: Orders, byId: seq<Entry>, e: Entry, k: nat)
    requires k < |byId| && byId[k].id == e.id && forall i :: 0 <= i < k ==> byId[i].id != e.id
    ensures Absorb(o, byId, e) == byId[k := MergeEntries(o, byId[k], e)]
  {
    if k > 0 {
      AbsorbAt(o, byId[1..], e, k - 1);
      SetInTail(byId, k, MergeEntries(o, byId[k], e));
    } else {
      SetHead(byId, MergeEntries(o, byId[0], e));
    }
  }

  lemma SetInTail<T>(s: seq<T>, k: nat, x: T)
    requires 0 < k < |s|
    ensures s[k := x] == [s[0]] + s[1..][k - 1 := x]
  {
  }

  lemma SetHead<T>(s: seq<T>, x: T)
    requires s != []
    ensures s[0 := x] == [x] + s[1..]
  {
  }

  lemma {:induction false} AbsorbNew(o: Orders, byId: seq<Entry>, e: Entry)
    requires forall i :: 0 <= i < |byId| ==> byId[i].id != e.id
    ensures Absorb(o, byId, e) == byId + [e]
  {
    if byId != [] { AbsorbNew(o, byId[1..], e); }
  }

  /** A map in insertion order holds these entries. */
  ghost predicate Holds(order: seq<string>, byId: map<string, Entry>, es: seq<Entry>) {
    && |order| == |es| && Distinct(order)
    && (forall k :: 0 <= k < |order| ==> order[k] in byId && byId[order[k]] == es[k] && es[k].id == order[k])
    && (forall id :: id in byId ==> id in order)
  }

  lemma HoldsAfterUpdate(order: seq<string>, byId: map<string, Entry>, es: seq<Entry>, k: nat, e: Entry)
    requires Holds(order, byId, es) && k < |es| && e.id == order[k]
    ensures Holds(order, byId[e.id := e], es[k := e])
  {
  }

  lemma HoldsAfterAdding(order: seq<string>, byId: map<string, Entry>, es: seq<Entry>, e: Entry)
    requires Holds(order, byId, es) && e.id !in byId
    ensures Holds(order + [e.id], byId[e.id := e], es + [e])
  {
  }

  /** One turn of the loop, on the map. */
  method AbsorbStash(o: Orders, order: seq<string>, byId: map<string, Entry>, stash: Entry, ghost es: seq<Entry>)
    returns (order': seq<string>, byId': map<string, Entry>)
    requires Holds(order, byId, es)
    ensures Holds(order', byId', Absorb(o, es, stash))
  {
    if stash.id in byId {
      ghost var k :| 0 <= k < |order| && order[k] == stash.id;
      AbsorbAt(o, es, stash, k);
      var merged := MergeEntries(o, byId[stash.id], stash);
      MergeKeepsId(o, byId[stash.id], stash);
      HoldsAfterUpdate(order, byId, es, k, merged);
      order', byId' := order, byId[stash.id := merged];
    } else {
      AbsorbNew(o, es, stash);
      HoldsAfterAdding(order, byId, es, stash);
      order', byId' := order + [stash.id], byId[stash.id := stash];
    }
  }

  /** The loop over a map in insertion order. */
  method DeduplicateStashes(o: Orders, stashes: seq<Entry>) returns (r: seq<Entry>)
    ensures r == Deduplicated(o, stashes)
    ensures Ids(r) == FirstSeen(Ids(stashes))
    ensures Lawful(o) ==> forall k :: 0 <= k < |r| ==> StandsForItsId(r[k], stashes)
  {
    var order: seq<string> := [];
    var byId: map<string, Entry> := map[];
    var i := 0;
    while i < |stashes|
      invariant 0 <= i <= |stashes|
      invariant Holds(order, byId, Deduplicated(o, stashes[..i]))
    {
      assert stashes[..i + 1][..i] == stashes[..i] && stashes[..i + 1][i] == stashes[i];
      order, byId := AbsorbStash(o, order, byId, stashes[i], Deduplicated(o, stashes[..i]));
      i := i + 1;
    }
    assert stashes[..|stashes|] == stashes;
    r := seq(|order|, k requires 0 <= k < |order| && order[k] in byId => byId[order[k]]);
    OneEntryPerId(o, stashes);
    if Lawful(o) {
      forall k | 0 <= k < |r| ensures StandsForItsId(r[k], stashes) {
        EachStandsForItsId(o, stashes, r[k]);
      }
    }
  }
}
