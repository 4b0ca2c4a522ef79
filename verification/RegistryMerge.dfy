/** Merging registry entries with the same id, and deduplicating a list of them. */
module RegistryMerge {
  import opened Basics
  import opened KeyedMerge

  /** `detail` stands for an asset's remaining fields. */
  datatype Asset = Asset(kind: string, name: string, detail: string)

  datatype Entry = Entry(
    id: string,
    name: string,
    description: Option<string>,
    ref: string,
    source: string,
    homepage: Option<string>,
    tags: Option<seq<string>>,
    assetTypes: Option<seq<string>>,
    assets: Option<seq<Asset>>,
    author: Option<string>,
    license: Option<string>,
    latestVersion: Option<string>)

  /** `units` is the default sort order, `locale` the order of `localeCompare`. */
  datatype Orders = Orders(units: (string, string) -> bool, locale: (string, string) -> bool)

  ghost predicate Lawful(o: Orders) {
    TotalOrder(o.units) && TotalPreorder(o.locale)
  }

  function Key(a: Asset): string {
    a.kind + ":" + a.name
  }

  function Self(s: string): string {
    s
  }

  function OrElse<T>(a: Option<T>, b: Option<T>): Option<T> {
    if a.Some? then a else b
  }

  function ListOf<T>(a: Option<seq<T>>): seq<T> {
    if a.Some? then a.value else []
  }

  function NonEmpty<T>(s: seq<T>): Option<seq<T>> {
    if s == [] then None else Some(s)
  }

  predicate Blank(s: string) {
    forall i | 0 <= i < |s| :: IsSpace(s[i])
  }

  function NotBlank(s: seq<string>): seq<string> {
    if s == [] then [] else (if Blank(s[0]) then [] else [s[0]]) + NotBlank(s[1..])
  }

  /** `mergeStrings`, given its lists one after the other. */
  function MergeStrings(o: Orders, all: seq<string>): Option<seq<string>> {
    NonEmpty(Merged(o.units, Self, NotBlank(all)))
  }

  function MergeAssets(o: Orders, a: Option<seq<Asset>>, b: Option<seq<Asset>>): Option<seq<Asset>> {
    NonEmpty(Merged(o.locale, Key, ListOf(a) + ListOf(b)))
  }

  function Kinds(assets: seq<Asset>): seq<string> {
    if assets == [] then [] else [assets[0].kind] + Kinds(assets[1..])
  }

  function DeriveAssetTypes(o: Orders, assets: Option<seq<Asset>>): Option<seq<string>> {
    MergeStrings(o, Kinds(ListOf(assets)))
  }

  /** Empty lists stay as they are; a non-empty asset list is sorted. */
  function NormalizeStash(o: Orders, e: Entry): Entry {
    if e.assets.Some? && e.assets.value != [] then e.(assets := Some(SortBy(o.locale, Key, e.assets.value))) else e
  }

  function MergeEntries(o: Orders, a: Entry, b: Entry): Entry {
    var assets := MergeAssets(o, a.assets, b.assets);
    var declared := ListOf(a.assetTypes) + ListOf(b.assetTypes);
    var assetTypes := MergeStrings(o, declared + ListOf(DeriveAssetTypes(o, assets)));
    NormalizeStash(o, Entry(
      a.id, a.name, OrElse(a.description, b.description), a.ref, a.source, OrElse(a.homepage, b.homepage),
      MergeStrings(o, ListOf(a.tags) + ListOf(b.tags)), assetTypes, assets,
      OrElse(a.author, b.author), OrElse(a.license, b.license), OrElse(a.latestVersion, b.latestVersion)))
  }

  // ---- strings ----

  lemma {:induction false} NotBlankMember(s: seq<string>, x: string)
    ensures x in NotBlank(s) <==> x in s && !Blank(x)
  {
    if s != [] { NotBlankMember(s[1..], x); }
  }

  /** A merged string list is the sorted list of the non-blank strings that occur. */
  lemma MergeStringsMember(o: Orders, all: seq<string>, x: string)
    requires Lawful(o)
    ensures x in ListOf(MergeStrings(o, all)) <==> x in all && !Blank(x)
  {
    MergedMeaning(o.units, Self, NotBlank(all));
    NotBlankMember(all, x);
    LookupFound(Self, NotBlank(all), x);
  }

  lemma SameStringsMergeAlike(o: Orders, s: seq<string>, t: seq<string>)
    requires Lawful(o) && forall x :: !Blank(x) ==> (x in s <==> x in t)
    ensures MergeStrings(o, s) == MergeStrings(o, t)
  {
    forall k ensures Lookup(Self, NotBlank(s), k) == Lookup(Self, NotBlank(t), k) {
      LookupFound(Self, NotBlank(s), k);
      LookupFound(Self, NotBlank(t), k);
      NotBlankMember(s, k);
      NotBlankMember(t, k);
    }
    MergedDependsOnLookup(o.units, Self, NotBlank(s), NotBlank(t));
  }

  lemma MergeStringsAssociates(o: Orders, a: seq<string>, b: seq<string>, c: seq<string>)
    requires Lawful(o)
    ensures MergeStrings(o, ListOf(MergeStrings(o, a + b)) + c) == MergeStrings(o, a + ListOf(MergeStrings(o, b + c)))
  {
    forall x | !Blank(x)
      ensures x in ListOf(MergeStrings(o, a + b)) + c <==> x in a + ListOf(MergeStrings(o, b + c))
    {
      MergeStringsMember(o, a + b, x);
      MergeStringsMember(o, b + c, x);
    }
    SameStringsMergeAlike(o, ListOf(MergeStrings(o, a + b)) + c, a + ListOf(MergeStrings(o, b + c)));
  }

  // ---- assets ----

  lemma MergeAssetsAssociates(o: Orders, a: Option<seq<Asset>>, b: Option<seq<Asset>>, c: Option<seq<Asset>>)
    requires Lawful(o)
    ensures ListOf(MergeAssets(o, a, b)) == Merged(o.locale, Key, ListOf(a) + ListOf(b))
    ensures MergeAssets(o, MergeAssets(o, a, b), c) == MergeAssets(o, a, MergeAssets(o, b, c))
    ensures MergeAssets(o, MergeAssets(o, a, b), c)
      == NonEmpty(Merged(o.locale, Key, ListOf(a) + ListOf(b) + ListOf(c)))
  {
    MergedAssociates(o.locale, Key, ListOf(a), ListOf(b), ListOf(c));
  }

  /** The merged assets are sorted already, so normalizing keeps them. */
  lemma MergeNormalizesNothing(o: Orders, a: Entry, b: Entry)
    requires Lawful(o)
    ensures MergeEntries(o, a, b).assets == MergeAssets(o, a.assets, b.assets)
  {
    var all := ListOf(a.assets) + ListOf(b.assets);
    MergedMeaning(o.locale, Key, all);
    SortedIsFixed(o.locale, Key, Merged(o.locale, Key, all));
  }

  lemma {:induction false} KindsMember(assets: seq<Asset>, x: string)
    ensures x in Kinds(assets) <==> exists a :: a in assets && a.kind == x
  {
    if assets != [] { KindsMember(assets[1..], x); }
  }

  /** Some asset of this type wins its key in the list. */
  ghost predicate WinningKind(s: seq<Asset>, x: string) {
    exists a :: Lookup(Key, s, Key(a)) == Some(a) && a.kind == x
  }

  /** The asset types of a merged entry: those declared, and those of the winning assets. */
  lemma MergedTypesMember(o: Orders, a: Entry, b: Entry, x: string)
    requires Lawful(o)
    ensures x in ListOf(MergeEntries(o, a, b).assetTypes) <==>
      !Blank(x) && (x in ListOf(a.assetTypes) || x in ListOf(b.assetTypes)
                    || WinningKind(ListOf(a.assets) + ListOf(b.assets), x))
  {
    var s := ListOf(a.assets) + ListOf(b.assets);
    var assets := MergeAssets(o, a.assets, b.assets);
    MergedMeaning(o.locale, Key, s);
    KindsMember(ListOf(assets), x);
    MergeStringsMember(o, Kinds(ListOf(assets)), x);
    MergeStringsMember(o, ListOf(a.assetTypes) + ListOf(b.assetTypes) + ListOf(DeriveAssetTypes(o, assets)), x);
  }

  // ---- merging entries associates ----

  function AllAssets(a: Entry, b: Entry, c: Entry): seq<Asset> {
    ListOf(a.assets) + ListOf(b.assets) + ListOf(c.assets)
  }

  function AllTypes(a: Entry, b: Entry, c: Entry): seq<string> {
    ListOf(a.assetTypes) + ListOf(b.assetTypes) + ListOf(c.assetTypes)
  }

  /** No type comes only from an asset of the later two entries that the first one overrides. */
  ghost predicate NoHiddenKind(a: Entry, b: Entry, c: Entry) {
    forall x :: !HiddenKind(a, b, c, x)
  }

  ghost predicate HiddenKind(a: Entry, b: Entry, c: Entry, x: string) {
    && !Blank(x) && WinningKind(ListOf(b.assets) + ListOf(c.assets), x)
    && x !in AllTypes(a, b, c) && !WinningKind(AllAssets(a, b, c), x)
  }

  /** The first entries' winners still win when more entries follow. */
  lemma WinnersStay(s: seq<Asset>, t: seq<Asset>, x: string)
    requires WinningKind(s, x)
    ensures WinningKind(s + t, x)
  {
    var p :| Lookup(Key, s, Key(p)) == Some(p) && p.kind == x;
    LookupConcat(Key, s, t, Key(p));
    assert Lookup(Key, s + t, Key(p)) == Some(p);
  }

  lemma LeftTypesMember(o: Orders, a: Entry, b: Entry, c: Entry, x: string)
    requires Lawful(o)
    ensures x in ListOf(MergeEntries(o, MergeEntries(o, a, b), c).assetTypes) <==>
      !Blank(x) && (x in AllTypes(a, b, c) || WinningKind(AllAssets(a, b, c), x))
  {
    var ab := MergeEntries(o, a, b);
    var s, t := ListOf(a.assets) + ListOf(b.assets), ListOf(c.assets);
    MergedTypesMember(o, a, b, x);
    MergedTypesMember(o, ab, c, x);
    MergeNormalizesNothing(o, a, b);
    forall k ensures Lookup(Key, ListOf(ab.assets) + t, k) == Lookup(Key, AllAssets(a, b, c), k) {
      LookupAfterMerge(o.locale, Key, s, t, k);
    }
    if WinningKind(s, x) { WinnersStay(s, t, x); }
  }

  lemma RegroupAssets(a: Entry, b: Entry, c: Entry)
    ensures ListOf(a.assets) + (ListOf(b.assets) + ListOf(c.assets)) == AllAssets(a, b, c)
  {
  }

  lemma RightTypesMember(o: Orders, a: Entry, b: Entry, c: Entry, x: string)
    requires Lawful(o)
    ensures x in ListOf(MergeEntries(o, a, MergeEntries(o, b, c)).assetTypes) <==>
      !Blank(x) && (x in AllTypes(a, b, c) || WinningKind(AllAssets(a, b, c), x)
                    || WinningKind(ListOf(b.assets) + ListOf(c.assets), x))
  {
    var bc := MergeEntries(o, b, c);
    MergedTypesMember(o, b, c, x);
    MergedTypesMember(o, a, bc, x);
    MergeNormalizesNothing(o, b, c);
    RegroupAssets(a, b, c);
    forall k ensures Lookup(Key, ListOf(a.assets) + ListOf(bc.assets), k) == Lookup(Key, AllAssets(a, b, c), k) {
      LookupAfterMerge(o.locale, Key, ListOf(a.assets), ListOf(b.assets) + ListOf(c.assets), k);
    }
  }

  lemma EqualTypesMeanEqualMembers(o: Orders, s: seq<string>, t: seq<string>)
    requires Lawful(o)
    ensures MergeStrings(o, s) == MergeStrings(o, t) <==>
      forall x :: x in ListOf(MergeStrings(o, s)) <==> x in ListOf(MergeStrings(o, t))
  {
    if forall x :: x in ListOf(MergeStrings(o, s)) <==> x in ListOf(MergeStrings(o, t)) {
      forall x | !Blank(x) ensures x in s <==> x in t {
        MergeStringsMember(o, s, x);
        MergeStringsMember(o, t, x);
      }
      SameStringsMergeAlike(o, s, t);
    }
  }

  lemma AssetsAssociate(o: Orders, a: Entry, b: Entry, c: Entry)
    requires Lawful(o)
    ensures MergeEntries(o, MergeEntries(o, a, b), c).assets == MergeEntries(o, a, MergeEntries(o, b, c)).assets
  {
    MergeNormalizesNothing(o, a, b);
    MergeNormalizesNothing(o, b, c);
    MergeNormalizesNothing(o, MergeEntries(o, a, b), c);
    MergeNormalizesNothing(o, a, MergeEntries(o, b, c));
    MergeAssetsAssociates(o, a.assets, b.assets, c.assets);
  }

  lemma TagsAssociate(o: Orders, a: Entry, b: Entry, c: Entry)
    requires Lawful(o)
    ensures MergeEntries(o, MergeEntries(o, a, b), c).tags == MergeEntries(o, a, MergeEntries(o, b, c)).tags
  {
    MergeStringsAssociates(o, ListOf(a.tags), ListOf(b.tags), ListOf(c.tags));
  }

  /** The fields that take the first value given. */
  ghost predicate SameScalars(l: Entry, r: Entry) {
    && l.id == r.id && l.name == r.name && l.ref == r.ref && l.source == r.source
    && l.description == r.description && l.homepage == r.homepage && l.author == r.author
    && l.license == r.license && l.latestVersion == r.latestVersion
  }

  ghost predicate FirstGiven(m: Entry, a: Entry, b: Entry) {
    && m.id == a.id && m.name == a.name && m.ref == a.ref && m.source == a.source
    && m.description == OrElse(a.description, b.description) && m.homepage == OrElse(a.homepage, b.homepage)
    && m.author == OrElse(a.author, b.author) && m.license == OrElse(a.license, b.license)
    && m.latestVersion == OrElse(a.latestVersion, b.latestVersion)
  }

  lemma FirstGivenAssociates(a: Entry, b: Entry, c: Entry, ab: Entry, bc: Entry, l: Entry, r: Entry)
    requires FirstGiven(ab, a, b) && FirstGiven(bc, b, c) && FirstGiven(l, ab, c) && FirstGiven(r, a, bc)
    ensures SameScalars(l, r)
  {
  }

  lemma ScalarsAssociate(o: Orders, a: Entry, b: Entry, c: Entry)
    ensures SameScalars(MergeEntries(o, MergeEntries(o, a, b), c), MergeEntries(o, a, MergeEntries(o, b, c)))
  {
    var ab, bc := MergeEntries(o, a, b), MergeEntries(o, b, c);
    FirstGivenAssociates(a, b, c, ab, bc, MergeEntries(o, ab, c), MergeEntries(o, a, bc));
  }

  function LeftTypes(o: Orders, a: Entry, b: Entry, c: Entry): Option<seq<string>> {
    MergeEntries(o, MergeEntries(o, a, b), c).assetTypes
  }

  function RightTypes(o: Orders, a: Entry, b: Entry, c: Entry): Option<seq<string>> {
    MergeEntries(o, a, MergeEntries(o, b, c)).assetTypes
  }

  lemma TypesDifferInHiddenKinds(o: Orders, a: Entry, b: Entry, c: Entry, x: string)
    requires Lawful(o)
    ensures (x in ListOf(LeftTypes(o, a, b, c)) <==> x in ListOf(RightTypes(o, a, b, c))) <==> !HiddenKind(a, b, c, x)
  {
    LeftTypesMember(o, a, b, c, x);
    RightTypesMember(o, a, b, c, x);
  }

  ghost predicate SameMembers(s: Option<seq<string>>, t: Option<seq<string>>) {
    forall x :: x in ListOf(s) <==> x in ListOf(t)
  }

  lemma AllTypesDifferInHiddenKinds(o: Orders, a: Entry, b: Entry, c: Entry)
    requires Lawful(o)
    ensures var left, right := ListOf(LeftTypes(o, a, b, c)), ListOf(RightTypes(o, a, b, c));
      forall x :: (x in left <==> x in right) <==> !HiddenKind(a, b, c, x)
  {
    forall x { TypesDifferInHiddenKinds(o, a, b, c, x); }
  }

  /** The asset types alone. */
  lemma TypesAssociateExactly(o: Orders, a: Entry, b: Entry, c: Entry)
    requires Lawful(o)
    ensures LeftTypes(o, a, b, c) == RightTypes(o, a, b, c) <==> NoHiddenKind(a, b, c)
  {
    TypesAreCanonical(o, MergeEntries(o, a, b), c, a, MergeEntries(o, b, c));
    AllTypesDifferInHiddenKinds(o, a, b, c);
    SameMembersExactly(LeftTypes(o, a, b, c), RightTypes(o, a, b, c), x => HiddenKind(a, b, c, x));
  }

  /** Lists that differ in exactly the hidden members are alike exactly when nothing is hidden. */
  lemma SameMembersExactly(l: Option<seq<string>>, r: Option<seq<string>>, hidden: string -> bool)
    requires forall x :: (x in ListOf(l) <==> x in ListOf(r)) <==> !hidden(x)
    ensures SameMembers(l, r) <==> forall x :: !hidden(x)
  {
  }

  /** Merged asset types are equal as soon as they have the same members. */
  lemma TypesAreCanonical(o: Orders, a: Entry, b: Entry, c: Entry, d: Entry)
    requires Lawful(o)
    ensures MergeEntries(o, a, b).assetTypes == MergeEntries(o, c, d).assetTypes <==>
      SameMembers(MergeEntries(o, a, b).assetTypes, MergeEntries(o, c, d).assetTypes)
  {
    EqualTypesMeanEqualMembers(o,
      ListOf(a.assetTypes) + ListOf(b.assetTypes) + ListOf(DeriveAssetTypes(o, MergeAssets(o, a.assets, b.assets))),
      ListOf(c.assetTypes) + ListOf(d.assetTypes) + ListOf(DeriveAssetTypes(o, MergeAssets(o, c.assets, d.assets))));
  }

  /** Merging associates in every field but the asset types, and in those exactly when no
      type is hidden behind an overridden asset. */
  lemma MergeAssociatesExactly(o: Orders, a: Entry, b: Entry, c: Entry)
    requires Lawful(o)
    ensures MergeEntries(o, MergeEntries(o, a, b), c) == MergeEntries(o, a, MergeEntries(o, b, c))
      <==> NoHiddenKind(a, b, c)
  {
    ScalarsAssociate(o, a, b, c);
    TagsAssociate(o, a, b, c);
    AssetsAssociate(o, a, b, c);
    TypesAssociateExactly(o, a, b, c);
  }

  /** Asset types without a colon: then a key determines the type. */
  predicate KindsAreColonFree(s: seq<Asset>) {
    forall i | 0 <= i < |s| :: ':' !in s[i].kind
  }

  predicate ColonFree(e: Entry) {
    KindsAreColonFree(ListOf(e.assets))
  }

  function BeforeColon(s: string): string {
    if s == "" || s[0] == ':' then "" else [s[0]] + BeforeColon(s[1..])
  }

  lemma {:induction false} KeyNamesKind(kind: string, name: string)
    requires ':' !in kind
    ensures BeforeColon(kind + ":" + name) == kind
  {
    if kind == "" {
      assert (kind + ":" + name)[0] == ':';
    } else {
      assert (kind + ":" + name)[1..] == kind[1..] + ":" + name;
      KeyNamesKind(kind[1..], name);
    }
  }

  /** Then a type that wins in a list still wins, if through another asset, behind any other list. */
  lemma ColonFreeWinners(s: seq<Asset>, t: seq<Asset>, x: string)
    requires KindsAreColonFree(s) && KindsAreColonFree(t) && WinningKind(t, x)
    ensures WinningKind(s + t, x)
  {
    var p :| Lookup(Key, t, Key(p)) == Some(p) && p.kind == x;
    LookupFound(Key, t, Key(p));
    LookupConcat(Key, s, t, Key(p));
    LookupFound(Key, s + t, Key(p));
    var w := Lookup(Key, s + t, Key(p)).value;
    KeyNamesKind(w.kind, w.name);
    KeyNamesKind(p.kind, p.name);
    assert Lookup(Key, s + t, Key(w)) == Some(w);
  }

  lemma ColonFreeHidesNothing(a: Entry, b: Entry, c: Entry)
    requires ColonFree(a) && ColonFree(b) && ColonFree(c)
    ensures NoHiddenKind(a, b, c)
  {
    var bc := ListOf(b.assets) + ListOf(c.assets);
    RegroupAssets(a, b, c);
    forall x | WinningKind(bc, x) ensures WinningKind(AllAssets(a, b, c), x) {
      ColonFreeWinners(ListOf(a.assets), bc, x);
    }
  }

  function Bare(assets: Option<seq<Asset>>): Entry {
    Entry("id", "n", None, "r", "s", None, None, None, assets, None, None, None)
  }

  /** Two assets of different types that share the key a:b:c. */
  const COLON_LEFT := Asset("a", "b:c", "")
  const COLON_RIGHT := Asset("a:b", "c", "")

  /** Behind the first of them the second one's type does not win. */
  lemma ColonsShareAKey()
    ensures WinningKind([COLON_RIGHT], "a:b") && !WinningKind([COLON_LEFT, COLON_RIGHT], "a:b") && !Blank("a:b")
  {
    assert Key(COLON_LEFT) == "a:b:c" == Key(COLON_RIGHT);
    assert Lookup(Key, [COLON_RIGHT], Key(COLON_RIGHT)) == Some(COLON_RIGHT);
    assert !Blank("a:b") by { assert "a:b"[0] == 'a'; }
    forall x | Lookup(Key, [COLON_LEFT, COLON_RIGHT], Key(x)) == Some(x) ensures x == COLON_LEFT {
      LookupFound(Key, [COLON_LEFT, COLON_RIGHT], Key(x));
    }
  }

  /** Types with a colon can hide. */
  lemma ColonsCanHideAKind(o: Orders)
    requires Lawful(o)
    ensures exists a, b, c :: MergeEntries(o, MergeEntries(o, a, b), c) != MergeEntries(o, a, MergeEntries(o, b, c))
  {
    var a, b, c := Bare(Some([COLON_LEFT])), Bare(Some([COLON_RIGHT])), Bare(None);
    assert ListOf(b.assets) + ListOf(c.assets) == [COLON_RIGHT] && AllAssets(a, b, c) == [COLON_LEFT, COLON_RIGHT];
    ColonsShareAKey();
    assert HiddenKind(a, b, c, "a:b");
    MergeAssociatesExactly(o, a, b, c);
  }

  // ---- the merging loop ----

  ghost predicate AreKeys(assets: seq<Asset>, keys: set<string>) {
    forall k :: k in keys <==> Lookup(Key, assets, k).Some?
  }

  lemma KeysGrow(assets: seq<Asset>, keys: set<string>, asset: Asset)
    requires AreKeys(assets, keys)
    ensures AreKeys(assets + [asset], keys + {Key(asset)})
  {
    forall k ensures Lookup(Key, assets + [asset], k).Some? <==> k in keys + {Key(asset)} {
      LookupConcat(Key, assets, [asset], k);
    }
  }

  lemma DistinctByNext(all: seq<Asset>, i: nat)
    requires i < |all|
    ensures DistinctBy(Key, all[..i + 1]) ==
      var init := DistinctBy(Key, all[..i]);
      if Lookup(Key, init, Key(all[i])).Some? then init else init + [all[i]]
  {
    assert all[..i + 1][..i] == all[..i] && all[..i + 1][i] == all[i];
  }

  /** `mergeAssets`: the first asset of each key, then the sort. */
  method MergeAssetLists(o: Orders, a: Option<seq<Asset>>, b: Option<seq<Asset>>) returns (r: Option<seq<Asset>>)
    ensures r == MergeAssets(o, a, b)
  {
    var all := ListOf(a) + ListOf(b);
    var merged: seq<Asset> := [];
    var keys: set<string> := {};
    var i := 0;
    while i < |all|
      invariant 0 <= i <= |all|
      invariant merged == DistinctBy(Key, all[..i])
      invariant AreKeys(merged, keys)
    {
      var asset := all[i];
      DistinctByNext(all, i);
      if Key(asset) !in keys {
        KeysGrow(merged, keys, asset);
        merged, keys := merged + [asset], keys + {Key(asset)};
      }
      i := i + 1;
    }
    assert all[..|all|] == all;
    r := NonEmpty(SortBy(o.locale, Key, merged));
  }
}
