/** Renaming a configured bundle: what the new configuration names, and when renaming back restores the old one. */
module BundleRename {
  import opened Basics
  import opened BundleRefs

  /** `bundles` in key order, if the section is there; `scheduler` lists the enabled refs. */
  datatype Config<E> = Config(
    bundles: Option<seq<(string, E)>>,
    defaultBundle: Option<string>,
    defaultWriteTarget: Option<string>,
    scheduler: Option<seq<string>>)

  type Bundles<E> = seq<(string, E)>

  function Keys<E>(bundles: Bundles<E>): (keys: seq<string>)
    ensures |keys| == |bundles|
  {
    seq(|bundles|, i requires 0 <= i < |bundles| => bundles[i].0)
  }

  /** Assigning to this key of a record sets the record's prototype and adds no entry. */
  const PROTO := "__proto__"

  /** A lookup finds own keys and the names every record inherits; the check for `to` asks for own keys only. */
  predicate CanRename<E>(inherited: set<string>, config: Config<E>, from: string, to: string) {
    && config.bundles.Some? && (from in Keys(config.bundles.value) || from in inherited)
    && from != to && IsBundleSlug(to) && to !in Keys(config.bundles.value)
  }

  function BundleOfRef(nfc: string -> string, ref: string): Option<string> {
    var r := ParseBundleRef(nfc, ref);
    if r.Ok? then r.value.bundle else None
  }

  function RenamedId(id: string, from: string, to: string): string {
    if id == from then to else id
  }

  function RenamedDefault(id: Option<string>, from: string, to: string): Option<string> {
    if id == Some(from) then Some(to) else id
  }

  /** A ref of the renamed bundle is printed again with the new bundle; any other is kept as it is spelled. */
  function RenamedRef(nfc: string -> string, ref: string, from: string, to: string): string {
    if BundleOfRef(nfc, ref) == Some(from) then
      var printed := BundleRefToString(nfc, ParseBundleRef(nfc, ref).value.(bundle := Some(to)));
      if printed.Ok? then printed.value else ref
    else ref
  }

  function RenamedRefs(nfc: string -> string, refs: seq<string>, from: string, to: string): (r: seq<string>)
    ensures |r| == |refs|
  {
    seq(|refs|, i requires 0 <= i < |refs| => RenamedRef(nfc, refs[i], from, to))
  }

  /** Setting one key of a new record that does not have it. */
  function Written<E>(bundles: Bundles<E>, key: string, entry: E): Bundles<E> {
    if key == PROTO then bundles else bundles + [(key, entry)]
  }

  function RenamedBundles<E>(bundles: Bundles<E>, from: string, to: string): Bundles<E> {
    if bundles == [] then []
    else
      var n := |bundles| - 1;
      Written(RenamedBundles(bundles[..n], from, to), RenamedId(bundles[n].0, from, to), bundles[n].1)
  }

  function WithBundles<E>(nfc: string -> string, config: Config<E>, from: string, to: string, bundles: Bundles<E>)
    : Config<E>
  {
    Config(
      Some(bundles),
      RenamedDefault(config.defaultBundle, from, to),
      RenamedDefault(config.defaultWriteTarget, from, to),
      if config.scheduler.Some? then Some(RenamedRefs(nfc, config.scheduler.value, from, to)) else None)
  }

  function Renamed<E>(nfc: string -> string, inherited: set<string>, config: Config<E>, from: string, to: string)
    : Checked<Config<E>>
  {
    if !CanRename(inherited, config, from, to) then Err
    else Ok(WithBundles(nfc, config, from, to, RenamedBundles(config.bundles.value, from, to)))
  }

  method RenameBundleInConfig<E>(nfc: string -> string, inherited: set<string>, config: Config<E>,
                                 from: string, to: string)
    returns (r: Checked<Config<E>>)
    ensures r == Renamed(nfc, inherited, config, from, to)
    ensures r.Ok? <==>
      && config.bundles.Some? && from != to && to != ""
      && (from in inherited || exists i | 0 <= i < |config.bundles.value| :: config.bundles.value[i].0 == from)
      && (forall i | 0 <= i < |config.bundles.value| :: config.bundles.value[i].0 != to)
      && (forall i | 0 <= i < |to| ::
            !IsSpace(to[i]) && to[i] != ':' && to[i] != '.' && to[i] != '#' && to[i] != '/')
  {
    if config.bundles.Some? {
      InKeys(config.bundles.value, from);
      InKeys(config.bundles.value, to);
    }
    if !CanRename(inherited, config, from, to) { return Err; }
    var entries := config.bundles.value;
    var bundles: Bundles<E> := [];
    for i := 0 to |entries|
      invariant bundles == RenamedBundles(entries[..i], from, to)
    {
      assert entries[..i + 1][..i] == entries[..i];
      bundles := Written(bundles, RenamedId(entries[i].0, from, to), entries[i].1);
    }
    assert entries[..|entries|] == entries;
    return Ok(WithBundles(nfc, config, from, to, bundles));
  }

  // ---- one ref ----

  lemma {:induction false} TrimEndKeepsStart(a: string, b: string)
    requires a != "" && !EndsWithSpace(a)
    ensures a <= TrimEnd(a + b)
    decreases |b|
  {
    if b == "" {
      assert a + b == a;
    } else if EndsWithSpace(b) {
      assert (a + b)[..|a + b| - 1] == a + b[..|b| - 1];
      TrimEndKeepsStart(a, b[..|b| - 1]);
    }
  }

  lemma TrimKeepsBundle(b: string, body: string) returns (rest: string)
    requires IsBundleSlug(b)
    ensures Trim(b + "//" + body) == b + "//" + rest
  {
    var head := b + "//";
    assert head[0] == b[0] && IsSlugChar(b[0]) && head[|head| - 1] == '/';
    assert TrimStart(head + body) == head + body;
    TrimEndKeepsStart(head, body);
    rest := TrimEnd(head + body)[|head|..];
  }

  /** Even a ref that printing does not keep whole still names its bundle, if it parses at all. */
  lemma TextNamesItsBundle(nfc: string -> string, r: Ref)
    requires IsNfc(nfc) && IsParsed(nfc, r) && r.bundle.Some?
    ensures ParseBundleRef(nfc, Text(r)).Ok? ==> ParseBundleRef(nfc, Text(r)).value.bundle == r.bundle
  {
    var b := r.bundle.value;
    assert Text(r) == b + "//" + Body(r);
    var rest := TrimKeepsBundle(b, Body(r));
    BundleIsRead(nfc, b, rest);
  }

  lemma BundleIsRead(nfc: string -> string, b: string, rest: string)
    requires IsBundleSlug(b)
    ensures ParseTrimmed(nfc, b + "//" + rest).Ok? ==> ParseTrimmed(nfc, b + "//" + rest).value.bundle == Some(b)
  {
    assert '/' !in b;
    DoubleAfter(b, rest);
    assert (b + "//" + rest)[..|b|] == b;
  }

  lemma RenamedRefIsText(nfc: string -> string, ref: string, from: string, to: string)
    requires IsNfc(nfc) && IsBundleSlug(to) && BundleOfRef(nfc, ref) == Some(from)
    ensures
      var r := ParseBundleRef(nfc, ref).value.(bundle := Some(to));
      IsParsed(nfc, r) && RenamedRef(nfc, ref, from, to) == Text(r)
  {
    RefIsParsed(nfc, ref);
  }

  /** A renamed ref names the new bundle or nothing, so exactly the refs of the old bundle change. */
  lemma RenamedRefNames(nfc: string -> string, ref: string, from: string, to: string)
    requires IsNfc(nfc) && IsBundleSlug(to) && from != to
    ensures BundleOfRef(nfc, RenamedRef(nfc, ref, from, to)) != Some(from)
    ensures RenamedRef(nfc, ref, from, to) != ref <==> BundleOfRef(nfc, ref) == Some(from)
  {
    if BundleOfRef(nfc, ref) == Some(from) {
      RenamedRefIsText(nfc, ref, from, to);
      TextNamesItsBundle(nfc, ParseBundleRef(nfc, ref).value.(bundle := Some(to)));
    }
  }

  /** A ref of the old bundle is printed with the new one in front; any other text is left alone. */
  lemma RenamedRefIsSpelled(nfc: string -> string, ref: string, from: string, to: string)
    requires IsNfc(nfc) && IsBundleSlug(to)
    ensures
      match ParseBundleRef(nfc, ref)
      case Ok(Ref(Some(bundle), conceptId, fragment)) =>
        RenamedRef(nfc, ref, from, to) ==
          if bundle != from then ref
          else to + "//" + conceptId + (if fragment.Some? then "#" + fragment.value else "")
      case _ => RenamedRef(nfc, ref, from, to) == ref
  {
    if BundleOfRef(nfc, ref) == Some(from) {
      RenamedRefIsText(nfc, ref, from, to);
      var r := ParseBundleRef(nfc, ref).value;
      Regroup(to + "//", r.conceptId, if r.fragment.Some? then "#" + r.fragment.value else "");
    }
  }

  /** The ref is spelled the way it would be printed. */
  predicate IsCanonical(nfc: string -> string, ref: string) {
    ParseBundleRef(nfc, ref).Ok? ==> Text(ParseBundleRef(nfc, ref).value) == ref
  }

  /** The ref does not name the new bundle, and if it names the old one it is spelled as it would be printed. */
  predicate RefComesBack(nfc: string -> string, ref: string, from: string, to: string) {
    BundleOfRef(nfc, ref) != Some(to) && (BundleOfRef(nfc, ref) == Some(from) ==> IsCanonical(nfc, ref))
  }

  lemma RefThereAndBack(nfc: string -> string, ref: string, from: string, to: string)
    requires IsNfc(nfc) && IsBundleSlug(from) && IsBundleSlug(to) && from != to
    ensures RenamedRef(nfc, RenamedRef(nfc, ref, from, to), to, from) == ref
      <==> RefComesBack(nfc, ref, from, to)
  {
    if BundleOfRef(nfc, ref) == Some(from) {
      OldRefThereAndBack(nfc, ref, from, to);
    } else {
      RenamedRefNames(nfc, ref, to, from);
    }
  }

  lemma OldRefThereAndBack(nfc: string -> string, ref: string, from: string, to: string)
    requires IsNfc(nfc) && IsBundleSlug(from) && IsBundleSlug(to) && from != to && BundleOfRef(nfc, ref) == Some(from)
    ensures RenamedRef(nfc, RenamedRef(nfc, ref, from, to), to, from) == ref <==> IsCanonical(nfc, ref)
  {
    var r := ParseBundleRef(nfc, ref).value;
    var there := r.(bundle := Some(to));
    RefIsParsed(nfc, ref);
    RenamedRefIsText(nfc, ref, from, to);
    RefsRoundTripExactly(nfc, ref);
    if PrintsWhole(r) {
      TextParses(nfc, there);
      RenamedRefIsText(nfc, Text(there), to, from);
      assert there.(bundle := Some(from)) == r;
    } else {
      BrokenRefStaysBroken(nfc, ref, from, to);
    }
  }

  /** A ref that printing does not keep whole never comes back. */
  lemma BrokenRefStaysBroken(nfc: string -> string, ref: string, from: string, to: string)
    requires IsNfc(nfc) && IsBundleSlug(from) && IsBundleSlug(to) && from != to && BundleOfRef(nfc, ref) == Some(from)
    requires !PrintsWhole(ParseBundleRef(nfc, ref).value)
    ensures RenamedRef(nfc, RenamedRef(nfc, ref, from, to), to, from) != ref
  {
    var r := ParseBundleRef(nfc, ref).value;
    var there := r.(bundle := Some(to));
    RefIsParsed(nfc, ref);
    RenamedRefIsText(nfc, ref, from, to);
    TextNamesItsBundle(nfc, there);
    if BundleOfRef(nfc, Text(there)) == Some(to) {
      TextHasNoHash(nfc, there);
      TrimKeepsNoHash(Text(there));
      TrimMeaning(Text(there));
      NoConceptEndsInSpace(nfc, Trim(Text(there)));
      var r2 := ParseBundleRef(nfc, Text(there)).value;
      RefIsParsed(nfc, Text(there));
      RenamedRefIsText(nfc, Text(there), to, from);
      TextParses(nfc, r2.(bundle := Some(from)));
    }
  }

  // ---- the configuration ----

  predicate SomeRefNames(nfc: string -> string, refs: seq<string>, id: string) {
    exists i | 0 <= i < |refs| :: BundleOfRef(nfc, refs[i]) == Some(id)
  }

  /** Some default or enabled ref names the bundle. */
  predicate Names<E>(nfc: string -> string, config: Config<E>, id: string) {
    || config.defaultBundle == Some(id) || config.defaultWriteTarget == Some(id)
    || (config.scheduler.Some? && SomeRefNames(nfc, config.scheduler.value, id))
  }

  /** No entry is written to the one key that does not keep it. */
  predicate LosesNone<E>(bundles: Bundles<E>, from: string, to: string) {
    forall i | 0 <= i < |bundles| :: RenamedId(bundles[i].0, from, to) != PROTO
  }

  /** The same entries in the same places, under the renamed keys. */
  ghost predicate SamePlaces<E>(before: Bundles<E>, after: Bundles<E>, from: string, to: string) {
    && |after| == |before|
    && forall i | 0 <= i < |before| :: after[i] == (RenamedId(before[i].0, from, to), before[i].1)
  }

  lemma {:induction false} EntriesKeepTheirPlaces<E>(bundles: Bundles<E>, from: string, to: string)
    ensures |RenamedBundles(bundles, from, to)| <= |bundles|
    ensures LosesNone(bundles, from, to) ==> SamePlaces(bundles, RenamedBundles(bundles, from, to), from, to)
    ensures !LosesNone(bundles, from, to) ==> |RenamedBundles(bundles, from, to)| < |bundles|
  {
    if bundles != [] {
      var n := |bundles| - 1;
      EntriesKeepTheirPlaces(bundles[..n], from, to);
      LosesOneMore(bundles, from, to);
      if LosesNone(bundles, from, to) {
        OnePlaceMore(bundles, RenamedBundles(bundles[..n], from, to), from, to);
      }
    }
  }

  lemma LosesOneMore<E>(bundles: Bundles<E>, from: string, to: string)
    requires bundles != []
    ensures LosesNone(bundles, from, to)
      <==> LosesNone(bundles[..|bundles| - 1], from, to) && RenamedId(bundles[|bundles| - 1].0, from, to) != PROTO
  {
    assert forall i | 0 <= i < |bundles| - 1 :: bundles[..|bundles| - 1][i] == bundles[i];
  }

  lemma OnePlaceMore<E>(before: Bundles<E>, rest: Bundles<E>, from: string, to: string)
    requires before != [] && SamePlaces(before[..|before| - 1], rest, from, to)
    ensures
      var last := before[|before| - 1];
      SamePlaces(before, rest + [(RenamedId(last.0, from, to), last.1)], from, to)
  {
    assert forall i | 0 <= i < |before| - 1 :: before[..|before| - 1][i] == before[i];
  }

  lemma {:induction false} KeysAfter<E>(bundles: Bundles<E>, from: string, to: string, key: string)
    ensures key in Keys(RenamedBundles(bundles, from, to))
      <==> key != PROTO && exists i | 0 <= i < |bundles| :: RenamedId(bundles[i].0, from, to) == key
  {
    if bundles != [] {
      var n := |bundles| - 1;
      var rest, last := RenamedBundles(bundles[..n], from, to), RenamedId(bundles[n].0, from, to);
      KeysAfter(bundles[..n], from, to, key);
      assert last != PROTO ==> Keys(RenamedBundles(bundles, from, to)) == Keys(rest) + [last];
      assert forall i | 0 <= i < n :: bundles[..n][i] == bundles[i];
    }
  }

  lemma InKeys<E>(bundles: Bundles<E>, key: string)
    ensures key in Keys(bundles) <==> exists i | 0 <= i < |bundles| :: bundles[i].0 == key
  {
    assert forall i | 0 <= i < |bundles| :: Keys(bundles)[i] == bundles[i].0;
  }

  /** After a rename nothing names the old bundle. A bundle has the new name exactly when there was one to
      rename and the name is not `__proto__`, and all entries keep their places exactly when none is written there. */
  lemma NothingNamesTheOldId<E>(nfc: string -> string, inherited: set<string>, config: Config<E>,
                                from: string, to: string)
    requires IsNfc(nfc) && CanRename(inherited, config, from, to)
    ensures
      var before, after := config.bundles.value, Renamed(nfc, inherited, config, from, to).value;
      && from !in Keys(after.bundles.value) && !Names(nfc, after, from)
      && (to in Keys(after.bundles.value) <==> from in Keys(before) && to != PROTO)
      && (SamePlaces(before, after.bundles.value, from, to) <==> LosesNone(before, from, to))
  {
    var before := config.bundles.value;
    EntriesKeepTheirPlaces(before, from, to);
    KeysAfter(before, from, to, from);
    KeysAfter(before, from, to, to);
    InKeys(before, from);
    InKeys(before, to);
    RefsNoLongerName(nfc, config, from, to);
  }

  lemma RefsNoLongerName<E>(nfc: string -> string, config: Config<E>, from: string, to: string)
    requires IsNfc(nfc) && IsBundleSlug(to) && from != to && config.bundles.Some?
    ensures !Names(nfc, WithBundles(nfc, config, from, to, RenamedBundles(config.bundles.value, from, to)), from)
  {
    if config.scheduler.Some? {
      var refs := config.scheduler.value;
      forall i | 0 <= i < |refs| ensures BundleOfRef(nfc, RenamedRefs(nfc, refs, from, to)[i]) != Some(from) {
        RenamedRefNames(nfc, refs[i], from, to);
      }
    }
  }

  /** A bundle renamed to `__proto__` is gone. */
  lemma RenamingToProtoLosesTheEntry<E>(nfc: string -> string, inherited: set<string>, entry: E)
    ensures
      var config := Config(Some([("foo", entry)]), None, None, None);
      && CanRename(inherited, config, "foo", PROTO)
      && Renamed(nfc, inherited, config, "foo", PROTO) == Ok(Config(Some([]), None, None, None))
  {
    var bundles := [("foo", entry)];
    assert Keys(bundles)[0] == "foo" && bundles[..0] == [];
    assert forall key :: key in Keys(bundles) ==> key == "foo";
    assert RenamedBundles(bundles[..0], "foo", PROTO) == [];
  }

  predicate OldRefsAreCanonical<E>(nfc: string -> string, config: Config<E>, id: string) {
    config.scheduler.Some? ==>
      forall i | 0 <= i < |config.scheduler.value| ::
        BundleOfRef(nfc, config.scheduler.value[i]) == Some(id) ==> IsCanonical(nfc, config.scheduler.value[i])
  }

  /** The bundles can come back: no entry has or gets the key `__proto__`, and the way back finds the new name. */
  predicate EntriesComeBack<E>(inherited: set<string>, bundles: Bundles<E>, from: string, to: string) {
    PROTO !in Keys(bundles) && if from in Keys(bundles) then to != PROTO else to in inherited
  }

  /** Renaming there and back restores the configuration exactly when the old id is a legal name, the bundles
      can come back, nothing named the new id already, and the refs of the old one were spelled as printed. */
  lemma ThereAndBackExactly<E>(nfc: string -> string, inherited: set<string>, config: Config<E>,
                               from: string, to: string)
    requires IsNfc(nfc) && CanRename(inherited, config, from, to)
    ensures Renamed(nfc, inherited, Renamed(nfc, inherited, config, from, to).value, to, from) == Ok(config)
      <==> IsBundleSlug(from) && EntriesComeBack(inherited, config.bundles.value, from, to)
           && !Names(nfc, config, to) && OldRefsAreCanonical(nfc, config, from)
  {
    var before := config.bundles.value;
    var after := Renamed(nfc, inherited, config, from, to).value;
    NothingNamesTheOldId(nfc, inherited, config, from, to);
    if IsBundleSlug(from) {
      BundlesThereAndBack(before, from, to);
      RestThereAndBack(nfc, config, after, from, to, before);
    }
  }

  /** Everything but the bundles comes back. */
  lemma RestThereAndBack<E>(nfc: string -> string, config: Config<E>, after: Config<E>, from: string, to: string,
                            bundles: Bundles<E>)
    requires IsNfc(nfc) && IsBundleSlug(from) && IsBundleSlug(to) && from != to && config.bundles.Some?
    requires after == WithBundles(nfc, config, from, to, RenamedBundles(config.bundles.value, from, to))
    ensures WithBundles(nfc, after, to, from, bundles) == config.(bundles := Some(bundles))
      <==> !Names(nfc, config, to) && OldRefsAreCanonical(nfc, config, from)
  {
    if config.scheduler.Some? {
      RefsThereAndBack(nfc, config.scheduler.value, from, to);
    }
  }

  lemma BundlesThereAndBack<E>(bundles: Bundles<E>, from: string, to: string)
    requires to !in Keys(bundles) && from != to
    ensures RenamedBundles(RenamedBundles(bundles, from, to), to, from) == bundles
      <==> PROTO !in Keys(bundles) && (from in Keys(bundles) ==> to != PROTO)
  {
    var there := RenamedBundles(bundles, from, to);
    InKeys(bundles, from);
    InKeys(bundles, to);
    InKeys(bundles, PROTO);
    EntriesKeepTheirPlaces(bundles, from, to);
    EntriesKeepTheirPlaces(there, to, from);
    if LosesNone(bundles, from, to) && LosesNone(there, to, from) {
      assert RenamedBundles(there, to, from) == bundles;
    }
  }

  lemma RefsThereAndBack(nfc: string -> string, refs: seq<string>, from: string, to: string)
    requires IsNfc(nfc) && IsBundleSlug(from) && IsBundleSlug(to) && from != to
    ensures RenamedRefs(nfc, RenamedRefs(nfc, refs, from, to), to, from) == refs
      <==> forall i | 0 <= i < |refs| :: RefComesBack(nfc, refs[i], from, to)
  {
    var back := RenamedRefs(nfc, RenamedRefs(nfc, refs, from, to), to, from);
    forall i | 0 <= i < |refs| ensures back[i] == refs[i] <==> RefComesBack(nfc, refs[i], from, to) {
      RefThereAndBack(nfc, refs[i], from, to);
    }
  }
}
