/** The ref grammar `[<bundle>//]<concept-id>[#<fragment>]`: when printing a parsed ref and
    parsing it again gives the ref back. */
module BundleRefs {
  import opened Basics

  datatype Ref = Ref(bundle: Option<string>, conceptId: string, fragment: Option<string>)

  datatype Checked<+T> = Ok(value: T) | Err

  // ---- bundle slugs ----

  predicate IsSlugChar(c: char) {
    !IsSpace(c) && c != ':' && c != '.' && c != '#' && c != '/'
  }

  predicate IsBundleSlug(s: string) {
    s != "" && forall i | 0 <= i < |s| :: IsSlugChar(s[i])
  }

  // ---- concept ids ----

  function Slashed(s: string): (r: string)
    ensures |r| == |s|
  {
    seq(|s|, i requires 0 <= i < |s| => if s[i] == '\\' then '/' else s[i])
  }

  /** Runs of slashes become one: all that path normalization does to a valid name. */
  function Collapse(s: string): string {
    if |s| >= 2 && s[0] == '/' && s[1] == '/' then Collapse(s[1..])
    else if s == "" then ""
    else [s[0]] + Collapse(s[1..])
  }

  function Segment(s: string): string {
    if s == "" || s[0] == '/' then "" else [s[0]] + Segment(s[1..])
  }

  /** Some segment, from the start of one on, is `.` or `..`. */
  predicate HasDotSegment(s: string, atStart: bool) {
    (atStart && (Segment(s) == "." || Segment(s) == "..")) || (s != "" && HasDotSegment(s[1..], s[0] == '/'))
  }

  predicate IsDrivePath(s: string) {
    |s| >= 2 && s[1] == ':' && ('A' <= s[0] <= 'Z' || 'a' <= s[0] <= 'z')
  }

  /** No traversal, no absolute or drive path, no null byte. */
  predicate IsValidName(name: string) {
    && name != "" && '\0' !in name && !IsDrivePath(name)
    && !HasDotSegment(Slashed(name), true) && Slashed(name)[0] != '/'
  }

  /** `nfc` is Unicode normalization. */
  function NormalizeConceptId(nfc: string -> string, raw: string): Checked<string> {
    var name := nfc(raw);
    if '#' in name || !IsValidName(name) then Err else Ok(Collapse(Slashed(name)))
  }

  // ---- refs ----

  function TrimStart(s: string): string {
    if s != "" && IsSpace(s[0]) then TrimStart(s[1..]) else s
  }

  function TrimEnd(s: string): string {
    if s != "" && IsSpace(s[|s| - 1]) then TrimEnd(s[..|s| - 1]) else s
  }

  function Trim(s: string): string {
    TrimEnd(TrimStart(s))
  }

  function FirstDouble(s: string): (at: Option<nat>)
    ensures at.Some? ==> at.value + 2 <= |s|
  {
    if |s| < 2 then None
    else if s[0] == '/' && s[1] == '/' then Some(0)
    else var at := FirstDouble(s[1..]); if at.Some? then Some(at.value + 1) else None
  }

  function FirstHash(s: string): (at: Option<nat>)
    ensures at.Some? ==> at.value < |s|
  {
    if s == "" then None
    else if s[0] == '#' then Some(0)
    else var at := FirstHash(s[1..]); if at.Some? then Some(at.value + 1) else None
  }

  function NonEmpty(s: string): Option<string> {
    if s == "" then None else Some(s)
  }

  function ParseBody(nfc: string -> string, bundle: Option<string>, body: string): Checked<Ref> {
    var hash := FirstHash(body);
    var path := if hash.Some? then body[..hash.value] else body;
    var fragment := if hash.Some? then NonEmpty(body[hash.value + 1..]) else None;
    if path == "" then Err
    else
      var conceptId := NormalizeConceptId(nfc, path);
      if conceptId.Err? then Err else Ok(Ref(bundle, conceptId.value, fragment))
  }

  function ParseTrimmed(nfc: string -> string, trimmed: string): Checked<Ref> {
    if trimmed == "" then Err
    else
      var boundary := FirstDouble(trimmed);
      if boundary.None? then ParseBody(nfc, None, trimmed)
      else if !IsBundleSlug(trimmed[..boundary.value]) then Err
      else ParseBody(nfc, Some(trimmed[..boundary.value]), trimmed[boundary.value + 2..])
  }

  function ParseBundleRef(nfc: string -> string, ref: string): Checked<Ref> {
    ParseTrimmed(nfc, Trim(ref))
  }

  function Text(r: Ref): string {
    (if r.bundle.Some? && r.bundle.value != "" then r.bundle.value + "//" else "")
    + (r.conceptId + (if r.fragment.Some? && r.fragment.value != "" then "#" + r.fragment.value else ""))
  }

  function BundleRefToString(nfc: string -> string, r: Ref): Checked<string> {
    var conceptId := NormalizeConceptId(nfc, r.conceptId);
    if conceptId.Err? || (r.bundle.Some? && r.bundle.value != "" && !IsBundleSlug(r.bundle.value)) then Err
    else Ok(Text(r.(conceptId := conceptId.value)))
  }

  // ---- normalization ----

  predicate StartsWithSpace(s: string) {
    s != "" && IsSpace(s[0])
  }

  predicate EndsWithSpace(s: string) {
    s != "" && IsSpace(s[|s| - 1])
  }

  /** What is used of Unicode normalization form C: it is idempotent, it turns no other end into white
      space, and a normalized string stays so when backslashes turn into slashes and slashes merge. */
  ghost predicate IsNfc(nfc: string -> string) {
    && (forall s {:trigger nfc(s)} :: nfc(nfc(s)) == nfc(s))
    && (forall s {:trigger nfc(s)} :: StartsWithSpace(nfc(s)) ==> StartsWithSpace(s))
    && (forall s {:trigger nfc(s)} :: EndsWithSpace(nfc(s)) ==> EndsWithSpace(s))
    && (forall s {:trigger Slashed(s)} :: nfc(s) == s ==> nfc(Collapse(Slashed(s))) == Collapse(Slashed(s)))
  }

  predicate HasDouble(s: string) {
    FirstDouble(s).Some?
  }

  lemma {:induction false} CollapseMeaning(s: string)
    ensures !HasDouble(Collapse(s)) && Collapse(Collapse(s)) == Collapse(s)
    ensures s != "" ==> Collapse(s) != "" && Collapse(s)[0] == s[0] && Collapse(s)[|Collapse(s)| - 1] == s[|s| - 1]
  {
    if |s| >= 2 && s[0] == '/' && s[1] == '/' {
      CollapseMeaning(s[1..]);
    } else if s != "" {
      CollapseMeaning(s[1..]);
      var rest := Collapse(s[1..]);
      assert ([s[0]] + rest)[1..] == rest;
    }
  }

  lemma {:induction false} CollapseMembers(s: string, c: char)
    ensures c in Collapse(s) <==> c in s
  {
    if s != "" {
      CollapseMembers(s[1..], c);
      assert s == [s[0]] + s[1..];
      if |s| >= 2 && s[0] == '/' && s[1] == '/' {
        assert s[1..][0] == '/';
      }
    }
  }

  lemma {:induction false} CollapseKeepsSegment(s: string)
    ensures Segment(Collapse(s)) == Segment(s)
  {
    CollapseMeaning(s);
    if s != "" && s[0] != '/' {
      CollapseKeepsSegment(s[1..]);
      assert Collapse(s)[1..] == Collapse(s[1..]);
    }
  }

  lemma {:induction false} CollapseKeepsDots(s: string, atStart: bool)
    ensures HasDotSegment(Collapse(s), atStart) ==> HasDotSegment(s, atStart)
  {
    if |s| >= 2 && s[0] == '/' && s[1] == '/' {
      CollapseKeepsDots(s[1..], atStart);
      assert Segment(s[1..]) == "";
      assert s[1..][0] == '/';
    } else if s != "" {
      CollapseKeepsSegment(s);
      CollapseKeepsDots(s[1..], s[0] == '/');
      assert Collapse(s)[1..] == Collapse(s[1..]);
    }
  }

  lemma SlashedMembers(s: string)
    ensures '\\' !in Slashed(s)
    ensures forall c | c != '/' && c in Slashed(s) :: c in s
    ensures '\\' !in s ==> Slashed(s) == s
  {
    forall c | c != '/' && c in Slashed(s) ensures c in s {
      var i :| 0 <= i < |Slashed(s)| && Slashed(s)[i] == c;
      assert s[i] == c;
    }
  }

  /** A normalized concept id normalizes to itself. */
  lemma NormalizedIsFixed(nfc: string -> string, raw: string, c: string)
    requires IsNfc(nfc) && NormalizeConceptId(nfc, raw) == Ok(c)
    ensures NormalizeConceptId(nfc, c) == Ok(c)
    ensures c != "" && '#' !in c && !HasDouble(c) && c[0] != '/'
    ensures StartsWithSpace(c) ==> StartsWithSpace(raw)
    ensures EndsWithSpace(c) ==> EndsWithSpace(raw)
  {
    var name := nfc(raw);
    var slashed := Slashed(name);
    assert nfc(c) == c;
    CollapseMeaning(slashed);
    SlashedMembers(name);
    CollapseMembers(slashed, '\\');
    CollapseMembers(slashed, '#');
    CollapseMembers(slashed, '\0');
    SlashedMembers(c);
    CollapseKeepsDots(slashed, true);
    SecondChar(slashed);
  }

  lemma SecondChar(s: string)
    requires s != "" && s[0] != '/'
    ensures |Collapse(s)| >= 2 ==> |s| >= 2 && Collapse(s)[1] == s[1]
  {
    CollapseMeaning(s[1..]);
    assert Collapse(s) == [s[0]] + Collapse(s[1..]);
  }

  // ---- parsing what was printed ----

  lemma {:induction false} DoubleAfter(b: string, rest: string)
    ensures '/' !in b ==> FirstDouble(b + "//" + rest) == Some(|b|)
  {
    if b != "" {
      DoubleAfter(b[1..], rest);
      assert (b + "//" + rest)[1..] == b[1..] + "//" + rest;
    }
  }

  lemma {:induction false} NoDoubleAcrossHash(a: string, b: string)
    ensures !HasDouble(a) && !HasDouble(b) ==> !HasDouble(a + "#" + b)
  {
    if a == "" {
      assert (a + "#" + b)[1..] == b;
    } else {
      NoDoubleAcrossHash(a[1..], b);
      assert (a + "#" + b)[1..] == a[1..] + "#" + b;
    }
  }

  lemma {:induction false} NoDoubleInSuffix(s: string, k: nat)
    requires !HasDouble(s) && k <= |s|
    ensures !HasDouble(s[k..])
  {
    if k > 0 {
      NoDoubleInSuffix(s[1..], k - 1);
      assert s[1..][k - 1..] == s[k..];
    }
  }

  lemma {:induction false} HashAfter(a: string, b: string)
    ensures '#' !in a ==> FirstHash(a) == None && FirstHash(a + "#" + b) == Some(|a|)
  {
    if a != "" {
      HashAfter(a[1..], b);
      assert (a + "#" + b)[1..] == a[1..] + "#" + b;
    }
  }

  lemma {:induction false} TrimEndMeaning(s: string)
    ensures !EndsWithSpace(TrimEnd(s)) && TrimEnd(s) <= s
  {
    if s != "" && IsSpace(s[|s| - 1]) {
      TrimEndMeaning(s[..|s| - 1]);
    }
  }

  lemma {:induction false} TrimStartMeaning(s: string)
    ensures !StartsWithSpace(TrimStart(s))
  {
    if s != "" && IsSpace(s[0]) {
      TrimStartMeaning(s[1..]);
    }
  }

  lemma TrimMeaning(s: string)
    ensures !StartsWithSpace(Trim(s)) && !EndsWithSpace(Trim(s))
  {
    TrimStartMeaning(s);
    TrimEndMeaning(TrimStart(s));
  }

  /** What every parsed ref is like. */
  ghost predicate IsParsed(nfc: string -> string, r: Ref) {
    && (r.bundle.Some? ==> IsBundleSlug(r.bundle.value))
    && (r.bundle.None? ==> !StartsWithSpace(r.conceptId) && (r.fragment.Some? ==> !HasDouble(r.fragment.value)))
    && NormalizeConceptId(nfc, r.conceptId) == Ok(r.conceptId)
    && r.conceptId != "" && '#' !in r.conceptId && !HasDouble(r.conceptId) && r.conceptId[0] != '/'
    && (r.fragment.Some? ==> r.fragment.value != "" && !EndsWithSpace(r.fragment.value))
  }

  lemma BodyIsParsed(nfc: string -> string, bundle: Option<string>, body: string)
    requires IsNfc(nfc) && !EndsWithSpace(body) && (bundle.Some? ==> IsBundleSlug(bundle.value))
    requires bundle.None? ==> !StartsWithSpace(body) && !HasDouble(body)
    ensures ParseBody(nfc, bundle, body).Ok? ==> IsParsed(nfc, ParseBody(nfc, bundle, body).value)
  {
    var hash := FirstHash(body);
    var path := if hash.Some? then body[..hash.value] else body;
    if ParseBody(nfc, bundle, body).Ok? {
      NormalizedIsFixed(nfc, path, ParseBody(nfc, bundle, body).value.conceptId);
      if bundle.None? && hash.Some? {
        NoDoubleInSuffix(body, hash.value + 1);
      }
    }
  }

  lemma TrimmedIsParsed(nfc: string -> string, trimmed: string)
    requires IsNfc(nfc) && !StartsWithSpace(trimmed) && !EndsWithSpace(trimmed) && ParseTrimmed(nfc, trimmed).Ok?
    ensures IsParsed(nfc, ParseTrimmed(nfc, trimmed).value)
  {
    var boundary := FirstDouble(trimmed);
    if boundary.None? {
      BodyIsParsed(nfc, None, trimmed);
    } else {
      BodyIsParsed(nfc, Some(trimmed[..boundary.value]), trimmed[boundary.value + 2..]);
    }
  }

  lemma RefIsParsed(nfc: string -> string, ref: string)
    requires IsNfc(nfc) && ParseBundleRef(nfc, ref).Ok?
    ensures IsParsed(nfc, ParseBundleRef(nfc, ref).value)
  {
    TrimMeaning(ref);
    TrimmedIsParsed(nfc, Trim(ref));
  }

  function Body(r: Ref): string {
    r.conceptId + if r.fragment.Some? then "#" + r.fragment.value else ""
  }

  lemma BodyParses(nfc: string -> string, r: Ref)
    requires IsParsed(nfc, r)
    ensures ParseBody(nfc, r.bundle, Body(r)) == Ok(r)
  {
    if r.fragment.Some? {
      HashAfter(r.conceptId, r.fragment.value);
      assert Body(r) == r.conceptId + "#" + r.fragment.value;
      assert Body(r)[..|r.conceptId|] == r.conceptId && Body(r)[|r.conceptId| + 1..] == r.fragment.value;
    } else {
      HashAfter(r.conceptId, "");
      assert Body(r) == r.conceptId;
    }
  }

  lemma TextBoundary(nfc: string -> string, r: Ref)
    requires IsParsed(nfc, r)
    ensures r.bundle.None? ==> Text(r) == Body(r) && FirstDouble(Text(r)) == None
    ensures r.bundle.Some? ==>
      var n := |r.bundle.value|;
      FirstDouble(Text(r)) == Some(n) && Text(r)[..n] == r.bundle.value && Text(r)[n + 2..] == Body(r)
  {
    if r.bundle.Some? {
      assert '/' !in r.bundle.value;
      DoubleAfter(r.bundle.value, Body(r));
      assert Text(r) == r.bundle.value + "//" + Body(r);
    } else if r.fragment.Some? {
      NoDoubleAcrossHash(r.conceptId, r.fragment.value);
      assert Text(r) == r.conceptId + "#" + r.fragment.value;
    } else {
      assert Text(r) == r.conceptId;
    }
  }

  /** The one thing printing loses: a concept id that ends in white space needs a fragment after it. */
  predicate PrintsWhole(r: Ref) {
    r.fragment.Some? || !EndsWithSpace(r.conceptId)
  }

  lemma TextEnds(nfc: string -> string, r: Ref)
    requires IsParsed(nfc, r) && PrintsWhole(r)
    ensures Text(r) != "" && !StartsWithSpace(Text(r)) && !EndsWithSpace(Text(r))
  {
    var text := Text(r);
    var last := if r.fragment.Some? then r.fragment.value else r.conceptId;
    assert text[|text| - 1] == last[|last| - 1];
    assert text[0] == if r.bundle.Some? then r.bundle.value[0] else r.conceptId[0];
  }

  lemma TrimsToItself(s: string)
    requires !StartsWithSpace(s) && !EndsWithSpace(s)
    ensures Trim(s) == s
  {
  }

  lemma BoundaryParses(nfc: string -> string, r: Ref, text: string)
    requires IsParsed(nfc, r) && text == Text(r) && text != ""
    ensures ParseTrimmed(nfc, text) == Ok(r)
  {
    assert ParseBody(nfc, r.bundle, Body(r)) == Ok(r) by { BodyParses(nfc, r); }
    TextBoundary(nfc, r);
  }

  lemma TextParses(nfc: string -> string, r: Ref)
    requires IsParsed(nfc, r) && PrintsWhole(r)
    ensures ParseBundleRef(nfc, Text(r)) == Ok(r)
  {
    TextEnds(nfc, r);
    TrimsToItself(Text(r));
    assert ParseTrimmed(nfc, Text(r)) == Ok(r) by { BoundaryParses(nfc, r, Text(r)); }
  }

  lemma {:induction false} NoHash(s: string)
    ensures '#' !in s ==> FirstHash(s) == None
  {
    if s != "" {
      NoHash(s[1..]);
    }
  }

  lemma {:induction false} TrimStartIsSuffix(s: string)
    ensures |TrimStart(s)| <= |s| && TrimStart(s) == s[|s| - |TrimStart(s)|..]
  {
    if s != "" && IsSpace(s[0]) {
      TrimStartIsSuffix(s[1..]);
    }
  }

  lemma TrimKeepsNoHash(s: string)
    ensures '#' !in s ==> '#' !in Trim(s)
  {
    TrimStartIsSuffix(s);
    TrimEndMeaning(TrimStart(s));
  }

  lemma BodyEnds(nfc: string -> string, bundle: Option<string>, body: string)
    requires IsNfc(nfc) && '#' !in body && !EndsWithSpace(body) && ParseBody(nfc, bundle, body).Ok?
    ensures !EndsWithSpace(ParseBody(nfc, bundle, body).value.conceptId)
  {
    NoHash(body);
    NormalizedIsFixed(nfc, body, ParseBody(nfc, bundle, body).value.conceptId);
  }

  lemma NoConceptEndsInSpace(nfc: string -> string, trimmed: string)
    requires IsNfc(nfc) && ParseTrimmed(nfc, trimmed).Ok? && '#' !in trimmed && !EndsWithSpace(trimmed)
    ensures !EndsWithSpace(ParseTrimmed(nfc, trimmed).value.conceptId)
  {
    var boundary := FirstDouble(trimmed);
    if boundary.None? {
      BodyEnds(nfc, None, trimmed);
    } else {
      BodyEnds(nfc, Some(trimmed[..boundary.value]), trimmed[boundary.value + 2..]);
    }
  }

  lemma TextHasNoHash(nfc: string -> string, r: Ref)
    requires IsParsed(nfc, r) && r.fragment.None?
    ensures '#' !in Text(r)
  {
    if r.bundle.Some? {
      assert forall i | 0 <= i < |r.bundle.value| :: IsSlugChar(r.bundle.value[i]);
    }
  }

  /** Printing a parsed ref succeeds, and parsing the text gives the ref back exactly when
      its concept id does not end in white space or a fragment follows. */
  lemma RefsRoundTripExactly(nfc: string -> string, ref: string)
    requires IsNfc(nfc) && ParseBundleRef(nfc, ref).Ok?
    ensures
      var r := ParseBundleRef(nfc, ref).value;
      && BundleRefToString(nfc, r) == Ok(Text(r))
      && (ParseBundleRef(nfc, Text(r)) == Ok(r) <==> PrintsWhole(r))
  {
    var r := ParseBundleRef(nfc, ref).value;
    RefIsParsed(nfc, ref);
    ParsedRoundTrips(nfc, r);
  }

  lemma ParsedRoundTrips(nfc: string -> string, r: Ref)
    requires IsNfc(nfc) && IsParsed(nfc, r)
    ensures ParseBundleRef(nfc, Text(r)) == Ok(r) <==> PrintsWhole(r)
  {
    if PrintsWhole(r) {
      TextParses(nfc, r);
    } else if ParseBundleRef(nfc, Text(r)).Ok? {
      TextHasNoHash(nfc, r);
      TrimKeepsNoHash(Text(r));
      TrimMeaning(Text(r));
      NoConceptEndsInSpace(nfc, Trim(Text(r)));
    }
  }

  /** A ref that does not survive: its empty fragment shields a trailing blank that printing exposes. */
  lemma BlankBeforeEmptyFragmentIsLost(nfc: string -> string)
    requires IsNfc(nfc) && nfc("a ") == "a "
    ensures ParseBundleRef(nfc, "a #") == Ok(Ref(None, "a ", None))
    ensures ParseBundleRef(nfc, Text(Ref(None, "a ", None))) != Ok(Ref(None, "a ", None))
  {
    BlankNormalizes(nfc);
    NoDoubleAcrossHash("a ", "");
    HashAfter("a ", "");
    assert "a #" == "a " + "#" + "" && "a #"[..2] == "a ";
    RefsRoundTripExactly(nfc, "a #");
  }

  lemma BlankNormalizes(nfc: string -> string)
    requires nfc("a ") == "a "
    ensures NormalizeConceptId(nfc, "a ") == Ok("a ")
  {
    assert Slashed("a ") == "a ";
    assert "a "[1..] == " " && " "[1..] == "";
    assert Collapse("a ") == "a ";
    assert !HasDotSegment(" ", false) && Segment("a ") == "a ";
    assert !HasDotSegment("a ", true);
  }

  // ---- what is accepted ----

  predicate IsSeparator(c: char) {
    c == '/' || c == '\\'
  }

  /** A segment `.` or `..` starts at `i`. */
  ghost predicate AreDots(s: string, i: nat)
    requires i < |s|
  {
    && (i == 0 || IsSeparator(s[i - 1]))
    && s[i] == '.'
    && (|| i + 1 == |s| || IsSeparator(s[i + 1])
        || (s[i + 1] == '.' && (i + 2 == |s| || IsSeparator(s[i + 2]))))
  }

  lemma SegmentStarts(s: string)
    ensures Segment(s) == "" <==> s == "" || s[0] == '/'
    ensures s != "" && s[0] != '/' ==> Segment(s) != "" && Segment(s)[0] == s[0] && Segment(s)[1..] == Segment(s[1..])
  {
  }

  lemma DotsAhead(s: string)
    requires '\\' !in s
    ensures Segment(s) == "." || Segment(s) == ".." <==> s != "" && AreDots(s, 0)
  {
    SegmentStarts(s);
    if s != "" && s[0] == '.' {
      SegmentStarts(s[1..]);
      if |s| > 1 {
        assert s[1..][0] == s[1];
        SegmentStarts(s[1..][1..]);
        assert |s| > 2 ==> s[1..][1..][0] == s[2];
      }
      assert Segment(s) == "." + Segment(s[1..]);
    }
  }

  lemma {:induction false} DotsExactly(s: string, atStart: bool)
    requires '\\' !in s
    ensures HasDotSegment(s, atStart) <==> exists i :: 0 <= i < |s| && AreDots(s, i) && (i == 0 ==> atStart)
  {
    if s != "" {
      DotsAhead(s);
      DotsExactly(s[1..], s[0] == '/');
      forall i | 0 <= i < |s| - 1 ensures AreDots(s[1..], i) && (i == 0 ==> s[0] == '/') <==> AreDots(s, i + 1) {
        assert i > 0 ==> s[1..][i - 1] == s[i];
      }
      if i :| 0 < i < |s| && AreDots(s, i) {
        assert AreDots(s[1..], i - 1);
      }
    }
  }

  /** An accepted concept id, in characters: not empty, not absolute, no drive, no fragment sign, no null byte,
      and no segment `.` or `..`, whichever way the separators lean. */
  lemma AcceptedExactly(nfc: string -> string, raw: string)
    ensures
      var s := nfc(raw);
      NormalizeConceptId(nfc, raw).Ok? <==>
        && s != "" && !IsSeparator(s[0]) && '#' !in s && '\0' !in s
        && !(|s| >= 2 && s[1] == ':' && ('A' <= s[0] <= 'Z' || 'a' <= s[0] <= 'z'))
        && forall i | 0 <= i < |s| :: !AreDots(s, i)
  {
    var s := nfc(raw);
    SlashedMembers(s);
    DotsExactly(Slashed(s), true);
    forall i | 0 <= i < |s| ensures AreDots(s, i) <==> AreDots(Slashed(s), i) {}
  }

  /** A name without doubled separators only has its backslashes turned. */
  lemma SeparatorsAreTurned(nfc: string -> string, raw: string)
    requires NormalizeConceptId(nfc, raw).Ok?
    requires
      var s := nfc(raw);
      forall i | 0 <= i < |s| - 1 :: !(IsSeparator(s[i]) && IsSeparator(s[i + 1]))
    ensures
      var s, c := nfc(raw), NormalizeConceptId(nfc, raw).value;
      |c| == |s| && forall i | 0 <= i < |s| :: c[i] == if s[i] == '\\' then '/' else s[i]
  {
    CollapseKeepsSingles(Slashed(nfc(raw)));
  }

  lemma {:induction false} CollapseKeepsSingles(s: string)
    requires forall i | 0 <= i < |s| - 1 :: s[i] != '/' || s[i + 1] != '/'
    ensures Collapse(s) == s
  {
    if s != "" {
      forall i | 0 <= i < |s[1..]| - 1 ensures s[1..][i] != '/' || s[1..][i + 1] != '/' {
        assert s[1..][i] == s[i + 1] && s[1..][i + 1] == s[i + 2];
      }
      CollapseKeepsSingles(s[1..]);
      assert s == [s[0]] + s[1..];
    }
  }

  /** Two separators in a row count as one. */
  lemma {:induction false} CollapseMergesTwo(a: string, b: string)
    ensures Collapse(a + "//" + b) == Collapse(a + "/" + b)
  {
    if a == "" {
      assert ("" + "//" + b)[1..] == "/" + b == "" + "/" + b;
    } else {
      CollapseMergesTwo(a[1..], b);
      assert (a + "//" + b)[1..] == a[1..] + "//" + b && (a + "/" + b)[1..] == a[1..] + "/" + b;
      if |a| > 1 {
        assert (a + "//" + b)[1] == a[1] == (a + "/" + b)[1];
      }
    }
  }

  lemma SlugExactly(s: string)
    ensures IsBundleSlug(s)
      <==> s != "" && ':' !in s && '.' !in s && '#' !in s && '/' !in s && forall i | 0 <= i < |s| :: !IsSpace(s[i])
  {
  }

  /** A doubled slash ends the bundle, the first `#` after it the concept id, and the rest is the fragment. */
  lemma QualifiedRefParses(nfc: string -> string, bundle: string, path: string, fragment: string)
    requires '/' !in bundle && '#' !in path
    requires !StartsWithSpace(bundle + "//" + (path + "#" + fragment))
    requires !EndsWithSpace(bundle + "//" + (path + "#" + fragment))
    ensures
      var ref := ParseBundleRef(nfc, bundle + "//" + (path + "#" + fragment));
      if bundle == "" || ':' in bundle || '.' in bundle || '#' in bundle || path == ""
         || NormalizeConceptId(nfc, path).Err? || exists i :: 0 <= i < |bundle| && IsSpace(bundle[i])
      then ref == Err
      else ref == Ok(Ref(Some(bundle), NormalizeConceptId(nfc, path).value,
                         if fragment == "" then None else Some(fragment)))
  {
    var body := path + "#" + fragment;
    var text := bundle + "//" + body;
    DoubleAfter(bundle, body);
    TrimsToItself(text);
    assert text[..|bundle|] == bundle && text[|bundle| + 2..] == body;
    HashAfter(path, fragment);
    assert body[..|path|] == path && body[|path| + 1..] == fragment;
    SlugExactly(bundle);
  }

  /** Printing refuses a concept id that is not accepted and a bundle that is no slug; an empty one is none. */
  lemma PrintsExactly(nfc: string -> string, r: Ref)
    ensures BundleRefToString(nfc, r).Ok? <==>
      && NormalizeConceptId(nfc, r.conceptId).Ok?
      && (r.bundle.Some? ==>
            && ':' !in r.bundle.value && '.' !in r.bundle.value && '#' !in r.bundle.value && '/' !in r.bundle.value
            && forall i | 0 <= i < |r.bundle.value| :: !IsSpace(r.bundle.value[i]))
  {
    if r.bundle.Some? {
      SlugExactly(r.bundle.value);
    }
  }

  /** Without a doubled slash there is no bundle, and without a `#` no fragment. */
  lemma ShortRefParses(nfc: string -> string, path: string)
    requires '#' !in path && !StartsWithSpace(path) && !EndsWithSpace(path)
    requires forall i | 0 <= i < |path| - 1 :: path[i] != '/' || path[i + 1] != '/'
    ensures
      var ref := ParseBundleRef(nfc, path);
      if path == "" || NormalizeConceptId(nfc, path).Err? then ref == Err
      else ref == Ok(Ref(None, NormalizeConceptId(nfc, path).value, None))
  {
    TrimsToItself(path);
    NoHash(path);
    SinglesHaveNoDouble(path);
  }

  lemma {:induction false} SinglesHaveNoDouble(s: string)
    requires forall i | 0 <= i < |s| - 1 :: s[i] != '/' || s[i + 1] != '/'
    ensures !HasDouble(s)
  {
    if |s| >= 2 {
      forall i | 0 <= i < |s[1..]| - 1 ensures s[1..][i] != '/' || s[1..][i + 1] != '/' {
        assert s[1..][i] == s[i + 1] && s[1..][i + 1] == s[i + 2];
      }
      SinglesHaveNoDouble(s[1..]);
    }
  }
}
