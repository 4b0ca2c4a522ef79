/** Bundle ids: slugs of paths, unique within a batch, with every configured id reserved. */
module BundleIds {
  import opened Basics
  import opened BundleRefs

  datatype Source = Source(registryId: Option<string>, path: string)

  /** The path library and the first eight hex digits of a SHA-256 digest. */
  datatype Host = Host(resolve: string -> string, basename: string -> string, digest: string -> string)

  function ShortHash(host: Host, path: string): string {
    host.digest(host.resolve(path))
  }

  // ---- slugs ----

  /** Every run of other characters becomes one dash. */
  function Dashed(s: string, inRun: bool): string {
    if s == "" then ""
    else if IsAlnum(s[0]) then [s[0]] + Dashed(s[1..], false)
    else (if inRun then "" else "-") + Dashed(s[1..], true)
  }

  function TrimLeft(s: string): string {
    if s != "" && s[0] == '-' then TrimLeft(s[1..]) else s
  }

  function TrimRight(s: string): string {
    if s != "" && s[|s| - 1] == '-' then TrimRight(s[..|s| - 1]) else s
  }

  function Slugify(name: string): string {
    TrimRight(TrimLeft(Dashed(Lower(name), false)))
  }

  function SlugForPath(host: Host, path: string): string {
    var base := Slugify(host.basename(host.resolve(path)));
    if base != "" then base else "bundle-" + ShortHash(host, path)
  }

  /** Letters and digits joined by single dashes. */
  predicate IsNeat(s: string) {
    && (s != "" ==> IsAlnum(s[0]) && IsAlnum(s[|s| - 1]))
    && forall i | 0 <= i < |s| :: IsAlnum(s[i]) || (s[i] == '-' && (i > 0 ==> s[i - 1] != '-'))
  }

  /** Neat except that it may start or end with a dash. */
  predicate IsTidy(s: string) {
    forall i | 0 <= i < |s| :: IsAlnum(s[i]) || (s[i] == '-' && (i > 0 ==> s[i - 1] != '-'))
  }

  lemma {:induction false} DashedIsTidy(s: string, inRun: bool)
    ensures IsTidy(Dashed(s, inRun))
    ensures inRun && Dashed(s, inRun) != "" ==> Dashed(s, inRun)[0] != '-'
  {
    if s != "" {
      DashedIsTidy(s[1..], !IsAlnum(s[0]));
    }
  }

  lemma {:induction false} TrimLeftMeaning(s: string)
    requires IsTidy(s)
    ensures IsTidy(TrimLeft(s)) && (TrimLeft(s) != "" ==> IsAlnum(TrimLeft(s)[0]))
  {
    if s != "" && s[0] == '-' {
      TrimLeftMeaning(s[1..]);
    }
  }

  lemma {:induction false} TrimRightMeaning(s: string)
    requires IsTidy(s) && (s != "" ==> IsAlnum(s[0]))
    ensures IsNeat(TrimRight(s))
  {
    if s != "" && s[|s| - 1] == '-' {
      TrimRightMeaning(s[..|s| - 1]);
    }
  }

  /** A slug is letters and digits joined by single dashes. */
  lemma SlugifyIsNeat(name: string)
    ensures
      var slug := Slugify(name);
      forall i | 0 <= i < |slug| ::
        || 'a' <= slug[i] <= 'z' || '0' <= slug[i] <= '9'
        || (slug[i] == '-' && 0 < i < |slug| - 1 && slug[i - 1] != '-' && slug[i + 1] != '-')
    ensures IsNeat(Slugify(name))
  {
    DashedIsTidy(Lower(name), false);
    TrimLeftMeaning(Dashed(Lower(name), false));
    TrimRightMeaning(TrimLeft(Dashed(Lower(name), false)));
  }

  lemma {:induction false} NeatStaysLower(s: string)
    requires forall i | 0 <= i < |s| :: 'a' <= s[i] <= 'z' || '0' <= s[i] <= '9' || s[i] == '-'
    ensures Lower(s) == s
  {
    if s != "" {
      NeatStaysLower(s[1..]);
      assert [s[0]] + s[1..] == s;
    }
  }

  lemma {:induction false} TidyStaysDashed(s: string, inRun: bool)
    requires IsTidy(s) && (inRun && s != "" ==> s[0] != '-')
    ensures Dashed(s, inRun) == s
  {
    if s != "" {
      TidyStaysDashed(s[1..], !IsAlnum(s[0]));
      assert [s[0]] + s[1..] == s;
    }
  }

  /** A base name of lower-case letters and digits joined by single dashes is its own slug. */
  lemma NeatNameIsItsOwnSlug(host: Host, path: string)
    requires var base := host.basename(host.resolve(path));
      && base != "" && base[0] != '-' && base[|base| - 1] != '-'
      && forall i | 0 <= i < |base| ::
           'a' <= base[i] <= 'z' || '0' <= base[i] <= '9' || (base[i] == '-' && (i > 0 ==> base[i - 1] != '-'))
    ensures SlugForPath(host, path) == host.basename(host.resolve(path))
  {
    NeatIsItsOwnSlug(host.basename(host.resolve(path)));
  }

  lemma NeatIsItsOwnSlug(s: string)
    requires s != "" && s[0] != '-' && s[|s| - 1] != '-' && IsTidy(s)
    requires forall i | 0 <= i < |s| :: 'a' <= s[i] <= 'z' || '0' <= s[i] <= '9' || s[i] == '-'
    ensures Slugify(s) == s
  {
    NeatStaysLower(s);
    TidyStaysDashed(s, false);
    assert TrimLeft(s) == s && TrimRight(s) == s;
  }

  /** A path whose base name has no letter or digit gets a slug made from its hash. */
  lemma NamelessPathGetsItsHash(host: Host, path: string)
    requires forall i | 0 <= i < |host.basename(host.resolve(path))| ::
      host.basename(host.resolve(path))[i] < '0'
    ensures SlugForPath(host, path) == "bundle-" + ShortHash(host, path)
  {
    var base := host.basename(host.resolve(path));
    LowCharsLower(base);
    LowCharsDash(base, false);
    assert TrimLeft("-") == "" by { assert "-"[1..] == ""; }
  }

  lemma {:induction false} LowCharsLower(s: string)
    requires forall i | 0 <= i < |s| :: s[i] < '0'
    ensures Lower(s) == s
  {
    if s != "" {
      LowCharsLower(s[1..]);
      assert [s[0]] + s[1..] == s;
    }
  }

  lemma {:induction false} LowCharsDash(s: string, inRun: bool)
    requires forall i | 0 <= i < |s| :: s[i] < '0'
    ensures Dashed(s, inRun) == if s == "" || inRun then "" else "-"
  {
    if s != "" {
      LowCharsDash(s[1..], true);
      assert "-" + "" == "-";
    }
  }

  // ---- numbering ----

  function Decimal(n: nat): (s: string)
    ensures s != ""
  {
    (if n < 10 then "" else Decimal(n / 10)) + [Digit(n % 10)]
  }

  function ValueOf(s: string): int {
    if s == "" then 0 else ValueOf(s[..|s| - 1]) * 10 + (s[|s| - 1] as int - 48)
  }

  lemma {:induction false} DecimalReadsBack(n: nat)
    ensures ValueOf(Decimal(n)) == n
  {
    if n >= 10 {
      DecimalReadsBack(n / 10);
    }
  }

  /** Without leading zeros. */
  lemma {:induction false} DecimalStartsHigh(n: nat)
    ensures n > 0 ==> Decimal(n)[0] != '0'
    ensures Decimal(0) == "0"
  {
    if n >= 10 {
      DecimalStartsHigh(n / 10);
    }
  }

  lemma {:induction false} DecimalIsDigits(n: nat)
    ensures AllAlnum(Decimal(n))
  {
    if n >= 10 {
      DecimalIsDigits(n / 10);
    }
  }

  function Numbered(suffixed: string, n: nat): string {
    suffixed + "-" + Decimal(n)
  }

  lemma NumberingIsInjective(suffixed: string, m: nat, n: nat)
    requires Numbered(suffixed, m) == Numbered(suffixed, n)
    ensures m == n
  {
    assert Numbered(suffixed, m)[|suffixed| + 1..] == Decimal(m);
    assert Numbered(suffixed, n)[|suffixed| + 1..] == Decimal(n);
    DecimalReadsBack(m);
    DecimalReadsBack(n);
  }

  // ---- one id ----

  function Suffixed(host: Host, preferred: string, path: string): string {
    preferred + "-" + ShortHash(host, path)
  }

  /** The first free name of: the preferred one, the hashed one, and the numbered ones from 2 on. */
  ghost predicate IsFirstFree(host: Host, preferred: string, path: string, used: set<string>, id: string) {
    var suffixed := Suffixed(host, preferred, path);
    if preferred !in used then id == preferred
    else if suffixed !in used then id == suffixed
    else IsFirstNumbered(suffixed, used, id)
  }

  ghost predicate IsFirstNumbered(suffixed: string, used: set<string>, id: string) {
    exists n: nat :: n >= 2 && id == Numbered(suffixed, n) && id !in used && TakenUpTo(suffixed, used, n)
  }

  ghost predicate TakenUpTo(suffixed: string, used: set<string>, n: nat) {
    forall m: nat :: 2 <= m < n ==> Numbered(suffixed, m) in used
  }

  /** The search ends because the numbered names differ and only finitely many are used. */
  method EnsureUniqueId(host: Host, preferred: string, path: string, used: set<string>) returns (id: string)
    ensures IsFirstFree(host, preferred, path, used, id)
    ensures preferred !in used ==> id == preferred
    ensures preferred in used ==>
      var hashed := preferred + "-" + host.digest(host.resolve(path));
      if hashed !in used then id == hashed
      else exists n: nat ::
        && n >= 2 && id == hashed + "-" + Decimal(n) && id !in used
        && forall m: nat :: 2 <= m < n ==> hashed + "-" + Decimal(m) in used
  {
    if preferred !in used { return preferred; }
    var suffixed := Suffixed(host, preferred, path);
    if suffixed !in used { return suffixed; }
    var n := 2;
    ghost var left := used;
    while Numbered(suffixed, n) in used
      invariant n >= 2 && left <= used && TakenUpTo(suffixed, used, n)
      invariant forall m: nat :: m >= n && Numbered(suffixed, m) in used ==> Numbered(suffixed, m) in left
      decreases left
    {
      forall m: nat | m > n ensures Numbered(suffixed, m) != Numbered(suffixed, n) {
        if Numbered(suffixed, m) == Numbered(suffixed, n) { NumberingIsInjective(suffixed, m, n); }
      }
      left := left - {Numbered(suffixed, n)};
      n := n + 1;
    }
    assert forall m: nat :: Numbered(suffixed, m) == suffixed + "-" + Decimal(m);
    return Numbered(suffixed, n);
  }

  class UsedIds {
    var ids: set<string>

    constructor (ids: set<string>)
      ensures this.ids == ids
    {
      this.ids := ids;
    }
  }

  predicate IsConfigured(s: Source) {
    s.registryId.Some? && IsBundleSlug(s.registryId.value)
  }

  function Preferred(host: Host, registryId: Option<string>, path: string): string {
    if registryId.Some? && IsBundleSlug(registryId.value) then registryId.value else SlugForPath(host, path)
  }

  method DeriveBundleId(host: Host, registryId: Option<string>, path: string, used: UsedIds) returns (id: string)
    modifies used
    ensures IsFirstFree(host, Preferred(host, registryId, path), path, old(used.ids), id)
    ensures used.ids == old(used.ids) + {id}
    ensures registryId.Some? && IsBundleSlug(registryId.value) && registryId.value !in old(used.ids) ==>
      id == registryId.value
    ensures (registryId.None? || !IsBundleSlug(registryId.value)) && SlugForPath(host, path) !in old(used.ids) ==>
      id == SlugForPath(host, path)
  {
    id := EnsureUniqueId(host, Preferred(host, registryId, path), path, used.ids);
    used.ids := used.ids + {id};
  }

  // ---- a batch ----

  function Reserved(sources: seq<Source>): set<string> {
    set i | 0 <= i < |sources| && IsConfigured(sources[i]) :: sources[i].registryId.value
  }

  /** What source `i` must not take: the ids before it, and unless it is configured the reserved ones. */
  function Barred(sources: seq<Source>, ids: seq<string>, i: nat): set<string>
    requires i < |sources| && i <= |ids|
  {
    Members(ids[..i]) + (if IsConfigured(sources[i]) then {} else Reserved(sources))
  }

  ghost predicate IsRight(host: Host, sources: seq<Source>, ids: seq<string>, i: nat)
    requires i < |sources| && i < |ids|
  {
    var s := sources[i];
    IsFirstFree(host, Preferred(host, s.registryId, s.path), s.path, Barred(sources, ids, i), ids[i])
  }

  ghost predicate IsBatch(host: Host, sources: seq<Source>, ids: seq<string>) {
    |ids| == |sources| && forall i | 0 <= i < |ids| :: IsRight(host, sources, ids, i)
  }

  method DeriveBundleIds(host: Host, sources: seq<Source>) returns (ids: seq<string>)
    ensures IsBatch(host, sources, ids)
  {
    var used := new UsedIds({});
    var reserved := Reserved(sources);
    ids := [];
    while |ids| < |sources|
      invariant |ids| <= |sources| && used.ids == Members(ids) && fresh(used)
      invariant forall i | 0 <= i < |ids| :: IsRight(host, sources, ids, i)
    {
      var source := sources[|ids|];
      var id;
      if IsConfigured(source) {
        id := DeriveBundleId(host, source.registryId, source.path, used);
      } else {
        var barred := new UsedIds(used.ids + reserved);
        id := DeriveBundleId(host, None, source.path, barred);
      }
      NextIsRight(host, sources, ids, id);
      used.ids := used.ids + {id};
      ids := ids + [id];
    }
  }

  lemma NextIsRight(host: Host, sources: seq<Source>, ids: seq<string>, id: string)
    requires |ids| < |sources| && forall i | 0 <= i < |ids| :: IsRight(host, sources, ids, i)
    requires IsFirstFree(host, Preferred(host, sources[|ids|].registryId, sources[|ids|].path), sources[|ids|].path,
                         Barred(sources, ids, |ids|), id)
    ensures forall i | 0 <= i <= |ids| :: IsRight(host, sources, ids + [id], i)
    ensures Members(ids + [id]) == Members(ids) + {id}
  {
    var more := ids + [id];
    assert more[..|ids|] == ids && ids[..|ids|] == ids;
    forall i | 0 <= i < |ids| ensures IsRight(host, sources, more, i) {
      assert IsRight(host, sources, ids, i) && more[..i] == ids[..i];
    }
    assert more[|ids|] == id;
    forall x | x in Members(ids) ensures x in Members(more) {
      var i :| 0 <= i < |ids| && ids[i] == x;
      assert more[i] == x;
    }
  }

  // ---- what a batch promises ----

  lemma NotBarred(host: Host, sources: seq<Source>, ids: seq<string>, i: nat)
    requires IsBatch(host, sources, ids) && i < |ids|
    ensures ids[i] !in Barred(sources, ids, i)
  {
    assert IsRight(host, sources, ids, i);
  }

  /** Whatever the sources are, no two get the same id, and no derived id is a configured one. */
  lemma IdsAreDistinct(host: Host, sources: seq<Source>, ids: seq<string>)
    requires IsBatch(host, sources, ids)
    ensures Distinct(ids)
    ensures forall i | 0 <= i < |ids| && !IsConfigured(sources[i]) :: ids[i] !in Reserved(sources)
  {
    forall i, j | 0 <= i < j < |ids| ensures ids[i] != ids[j] {
      NotBarred(host, sources, ids, j);
      assert ids[..j][i] == ids[i];
    }
    forall i | 0 <= i < |ids| && !IsConfigured(sources[i]) ensures ids[i] !in Reserved(sources) {
      NotBarred(host, sources, ids, i);
    }
  }

  /** Only one batch of ids is right. */
  lemma {:induction false} BatchIsUnique(host: Host, sources: seq<Source>, a: seq<string>, b: seq<string>, n: nat)
    requires IsBatch(host, sources, a) && IsBatch(host, sources, b) && n <= |sources|
    ensures a[..n] == b[..n]
  {
    if n > 0 {
      var i := n - 1;
      BatchIsUnique(host, sources, a, b, i);
      assert IsRight(host, sources, a, i) && IsRight(host, sources, b, i);
      assert a[..n] == a[..i] + [a[i]] && b[..n] == b[..i] + [b[i]];
    }
  }

  predicate ConfiguredDistinct(sources: seq<Source>) {
    forall i, j | 0 <= i < j < |sources| && IsConfigured(sources[i]) && IsConfigured(sources[j]) ::
      sources[i].registryId != sources[j].registryId
  }

  predicate Keeps(sources: seq<Source>, ids: seq<string>, i: nat)
    requires i < |sources| == |ids|
  {
    IsConfigured(sources[i]) ==> ids[i] == sources[i].registryId.value
  }

  /** Every configured source keeps its id, wherever it stands, exactly when the configured ids are distinct. */
  lemma ConfiguredIdsAreKept(host: Host, sources: seq<Source>, ids: seq<string>)
    requires IsBatch(host, sources, ids)
    ensures ConfiguredDistinct(sources) <==> forall i | 0 <= i < |sources| :: Keeps(sources, ids, i)
  {
    IdsAreDistinct(host, sources, ids);
    if ConfiguredDistinct(sources) {
      KeptUpTo(host, sources, ids, |sources|);
    }
    if forall i | 0 <= i < |sources| :: Keeps(sources, ids, i) {
      forall i, j | 0 <= i < j < |sources| && IsConfigured(sources[i]) && IsConfigured(sources[j])
        ensures sources[i].registryId != sources[j].registryId
      {
        assert Keeps(sources, ids, i) && Keeps(sources, ids, j);
      }
    }
  }

  lemma {:induction false} KeptUpTo(host: Host, sources: seq<Source>, ids: seq<string>, n: nat)
    requires IsBatch(host, sources, ids) && ConfiguredDistinct(sources) && n <= |sources|
    ensures forall i | 0 <= i < n :: Keeps(sources, ids, i)
  {
    if n > 0 {
      var k := n - 1;
      KeptUpTo(host, sources, ids, k);
      if IsConfigured(sources[k]) {
        IdsAreDistinct(host, sources, ids);
        var own := sources[k].registryId.value;
        forall i | 0 <= i < k ensures ids[i] != own {
          assert Keeps(sources, ids, i);
          assert own in Reserved(sources);
        }
        assert own !in Barred(sources, ids, k);
        assert IsRight(host, sources, ids, k);
      }
    }
  }

  // ---- deriving again from the ids that were stored ----

  ghost predicate IsHex(host: Host) {
    forall s :: AllAlnum(host.digest(s))
  }

  predicate AllAlnum(s: string) {
    s != "" && forall i | 0 <= i < |s| :: IsAlnum(s[i])
  }

  lemma PreferredIsLegal(host: Host, registryId: Option<string>, path: string)
    requires IsHex(host)
    ensures IsBundleSlug(Preferred(host, registryId, path))
  {
    SlugifyIsNeat(host.basename(host.resolve(path)));
    assert AllAlnum(ShortHash(host, path));
    assert "bundle" + "-" + ShortHash(host, path) == "bundle-" + ShortHash(host, path);
  }

  lemma FirstFreeIsLegal(host: Host, preferred: string, path: string, used: set<string>, id: string)
    requires IsHex(host) && IsBundleSlug(preferred) && IsFirstFree(host, preferred, path, used, id)
    ensures IsBundleSlug(id)
  {
    var suffixed := Suffixed(host, preferred, path);
    assert AllAlnum(ShortHash(host, path));
    if preferred in used && suffixed in used {
      var n: nat :| n >= 2 && id == Numbered(suffixed, n) && id !in used && TakenUpTo(suffixed, used, n);
      DecimalIsDigits(n);
    }
  }

  function WithIds(sources: seq<Source>, ids: seq<string>): (r: seq<Source>)
    requires |sources| == |ids|
  {
    seq(|sources|, i requires 0 <= i < |sources| => Source(Some(ids[i]), sources[i].path))
  }

  /** Every id is a legal bundle id, and deriving from sources configured with them gives them back. */
  lemma DerivingAgainKeepsIds(host: Host, sources: seq<Source>, ids: seq<string>, again: seq<string>)
    requires IsHex(host) && IsBatch(host, sources, ids) && IsBatch(host, WithIds(sources, ids), again)
    ensures forall i | 0 <= i < |ids| :: IsBundleSlug(ids[i])
    ensures again == ids
  {
    forall i | 0 <= i < |ids| ensures IsBundleSlug(ids[i]) {
      assert IsRight(host, sources, ids, i);
      PreferredIsLegal(host, sources[i].registryId, sources[i].path);
      FirstFreeIsLegal(host, Preferred(host, sources[i].registryId, sources[i].path), sources[i].path,
                       Barred(sources, ids, i), ids[i]);
    }
    IdsAreDistinct(host, sources, ids);
    ConfiguredIdsAreKept(host, WithIds(sources, ids), again);
    forall i | 0 <= i < |ids| ensures again[i] == ids[i] {
      assert Keeps(WithIds(sources, ids), again, i);
    }
  }
}
