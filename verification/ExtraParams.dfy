/** The walk over provider extras: a finite object graph that may be cyclic, searched once
    per container for keys that carry credentials or shadow AKM's own fields. */
module ExtraParams {
  import opened Basics

  // ---- keys ----

  /** What is left when everything but lower-case letters and digits is dropped. */
  function Alnums(s: string): string {
    if s == "" then "" else (if IsAlnum(s[0]) then [s[0]] else "") + Alnums(s[1..])
  }

  function NormalizeKey(key: string): string {
    Alnums(Lower(key))
  }

  /** What one character of a key leaves behind. */
  function NormalChar(c: char): string {
    Alnums(LowerChar(c))
  }

  lemma {:induction false} LowerConcat(a: string, b: string)
    ensures Lower(a + b) == Lower(a) + Lower(b)
  {
    if a == "" {
      assert a + b == b;
    } else {
      assert (a + b)[1..] == a[1..] + b && (a + b)[0] == a[0];
      LowerConcat(a[1..], b);
      Regroup(LowerChar(a[0]), Lower(a[1..]), Lower(b));
    }
  }

  lemma {:induction false} AlnumsConcat(a: string, b: string)
    ensures Alnums(a + b) == Alnums(a) + Alnums(b)
  {
    if a == "" {
      assert a + b == b;
    } else {
      assert (a + b)[1..] == a[1..] + b && (a + b)[0] == a[0];
      AlnumsConcat(a[1..], b);
      Regroup(if IsAlnum(a[0]) then [a[0]] else "", Alnums(a[1..]), Alnums(b));
    }
  }

  lemma NormalizeConcat(a: string, b: string)
    ensures NormalizeKey(a + b) == NormalizeKey(a) + NormalizeKey(b)
  {
    LowerConcat(a, b);
    AlnumsConcat(Lower(a), Lower(b));
  }

  lemma NormalizeOne(c: char)
    ensures NormalizeKey([c]) == NormalChar(c)
  {
    assert Lower([c]) == LowerChar(c) + "" == LowerChar(c);
  }

  lemma NormalizeAround(a: string, c: char, b: string)
    ensures NormalizeKey(a + [c] + b) == NormalizeKey(a) + NormalChar(c) + NormalizeKey(b)
  {
    NormalizeConcat(a + [c], b);
    NormalizeConcat(a, [c]);
    NormalizeOne(c);
  }

  /** Letter case and separators make no difference to what a key matches: a capital counts like its lower-case
      letter, and any other ASCII character that is no lower-case letter or digit may be left out. */
  lemma NormalizeIgnoresSpelling(a: string, c: char, d: char, b: string)
    ensures NormalChar(c) == NormalChar(d) ==> NormalizeKey(a + [c] + b) == NormalizeKey(a + [d] + b)
    ensures NormalChar(c) == "" ==> NormalizeKey(a + [c] + b) == NormalizeKey(a + b)
    ensures 'A' <= c <= 'Z' && d as int == c as int + 32 ==> NormalizeKey(a + [c] + b) == NormalizeKey(a + [d] + b)
    ensures c as int < 128 && !('a' <= c <= 'z') && !('A' <= c <= 'Z') && !('0' <= c <= '9') ==>
      NormalizeKey(a + [c] + b) == NormalizeKey(a + b)
  {
    NormalizeAround(a, c, b);
    NormalizeAround(a, d, b);
    NormalizeConcat(a, b);
    assert NormalizeKey(a) + "" == NormalizeKey(a);
    NormalCharExactly(c);
    NormalCharExactly(d);
    if 'A' <= c <= 'Z' && d as int == c as int + 32 {
      assert NormalChar(c) == [d] == NormalChar(d);
    }
  }

  // ---- what a key spells ----

  /** One character of a key stands for a letter or digit of a name: itself, its capital, or for `k` and `i`
      the two other capitals that lower-case to them. */
  predicate StandsFor(c: char, letter: char) {
    || c == letter || ('A' <= c <= 'Z' && letter as int == c as int - 'A' as int + 'a' as int)
    || (c == '\U{212A}' && letter == 'k') || (c == '\U{0130}' && letter == 'i')
  }

  predicate IsLetterOrDigit(c: char) {
    'a' <= c <= 'z' || 'A' <= c <= 'Z' || '0' <= c <= '9' || c == '\U{212A}' || c == '\U{0130}'
  }

  /** The key spells the name in any mixture of cases, with other characters anywhere between. */
  predicate Spells(key: string, name: string) {
    if key == "" then name == ""
    else if IsLetterOrDigit(key[0]) then name != "" && StandsFor(key[0], name[0]) && Spells(key[1..], name[1..])
    else Spells(key[1..], name)
  }

  predicate IsPlainName(name: string) {
    forall i | 0 <= i < |name| :: 'a' <= name[i] <= 'z' || '0' <= name[i] <= '9'
  }

  lemma NormalizeNext(key: string)
    requires key != ""
    ensures NormalizeKey(key) == NormalChar(key[0]) + NormalizeKey(key[1..])
  {
    assert key == [key[0]] + key[1..];
    NormalizeConcat([key[0]], key[1..]);
    NormalizeOne(key[0]);
  }

  /** A letter or digit leaves the one it stands for, and any other character nothing. */
  lemma NormalCharExactly(c: char)
    ensures !IsLetterOrDigit(c) ==> NormalChar(c) == ""
    ensures IsLetterOrDigit(c) ==>
      |NormalChar(c)| == 1 && IsPlainName(NormalChar(c)) && StandsFor(c, NormalChar(c)[0])
  {
    if c == '\U{0130}' {
      var low := "i\U{0307}";
      OneAlnum('\U{0307}');
      OneAlnum('i');
      AlnumsConcat("i", "\U{0307}");
      assert low == "i" + "\U{0307}" && "i" + "" == "i";
    } else {
      OneAlnum(LowerChar(c)[0]);
      assert LowerChar(c) == [LowerChar(c)[0]];
    }
  }

  lemma OneAlnum(c: char)
    ensures Alnums([c]) == if IsAlnum(c) then [c] else ""
  {
    assert [c][1..] == "";
  }

  lemma StandsForOne(c: char, a: char, b: char)
    requires StandsFor(c, a) && StandsFor(c, b) && IsPlainName([a]) && IsPlainName([b])
    ensures a == b
  {
    assert [a][0] == a && [b][0] == b;
  }

  /** A key normalizes to a name of letters and digits exactly when it spells it. */
  lemma {:induction false} NormalizesToWhatItSpells(key: string, name: string)
    requires IsPlainName(name)
    ensures NormalizeKey(key) == name <==> Spells(key, name)
    decreases |key|
  {
    if key != "" {
      NormalizeNext(key);
      NormalCharExactly(key[0]);
      var rest := NormalizeKey(key[1..]);
      if !IsLetterOrDigit(key[0]) {
        assert "" + rest == rest;
        NormalizesToWhatItSpells(key[1..], name);
      } else if name != "" {
        NormalizesToWhatItSpells(key[1..], name[1..]);
        FirstLetter(key[0], NormalChar(key[0]), rest, name);
      }
    }
  }

  lemma FirstLetter(c: char, first: string, rest: string, name: string)
    requires |first| == 1 && IsPlainName(first) && StandsFor(c, first[0]) && name != "" && IsPlainName(name)
    ensures first + rest == name <==> StandsFor(c, name[0]) && rest == name[1..]
  {
    if StandsFor(c, name[0]) {
      assert IsPlainName([first[0]]) && IsPlainName([name[0]]);
      StandsForOne(c, first[0], name[0]);
    }
    assert name == [name[0]] + name[1..] && first == [first[0]];
    assert (first + rest)[0] == first[0] && (first + rest)[1..] == rest;
  }

  const PROTECTED_KEYS: set<string> := {
    "model", "messages", "temperature", "maxtokens", "responseformat", "stream",
    "streamoptions", "enablethinking", "reasoningeffort", "chattemplatekwargs"
  }

  const CREDENTIAL_KEYS: set<string> := {
    "authorization", "headers", "apikey", "token", "password", "secret", "cookie", "setcookie"
  }

  predicate IsProtected(key: string) {
    NormalizeKey(key) in PROTECTED_KEYS
  }

  predicate IsCredential(key: string) {
    NormalizeKey(key) in CREDENTIAL_KEYS
  }

  const CREDENTIAL_NAMES: seq<string> := [
    "authorization", "headers", "apikey", "token", "password", "secret", "cookie", "setcookie"
  ]

  const PROTECTED_NAMES: seq<string> := [
    "model", "messages", "temperature", "maxtokens", "responseformat", "stream",
    "streamoptions", "enablethinking", "reasoningeffort", "chattemplatekwargs"
  ]

  /** In whatever spelling, a key that carries credentials. */
  predicate SpellsCredential(key: string) {
    SpellsOneOf(key, CREDENTIAL_NAMES)
  }

  /** In whatever spelling, a key that shadows a field AKM sets itself. */
  predicate SpellsProtected(key: string) {
    SpellsOneOf(key, PROTECTED_NAMES)
  }

  predicate SpellsOneOf(key: string, names: seq<string>) {
    exists i | 0 <= i < |names| :: Spells(key, names[i])
  }

  lemma NormalizesToOneOf(key: string, names: seq<string>)
    requires forall i | 0 <= i < |names| :: IsPlainName(names[i])
    ensures NormalizeKey(key) in names <==> SpellsOneOf(key, names)
  {
    forall i | 0 <= i < |names| ensures NormalizeKey(key) == names[i] <==> Spells(key, names[i]) {
      NormalizesToWhatItSpells(key, names[i]);
    }
  }

  /** Every spelling of these names is caught, and no other key. */
  lemma CredentialsAreCaught(key: string)
    ensures IsCredential(key) <==> SpellsCredential(key)
  {
    NormalizesToOneOf(key, CREDENTIAL_NAMES);
  }

  lemma ProtectedAreCaught(key: string)
    ensures IsProtected(key) <==> SpellsProtected(key)
  {
    ProtectedNamesArePlain();
    NormalizesToOneOf(key, PROTECTED_NAMES);
    SameProtectedNames(NormalizeKey(key));
  }

  lemma ProtectedNamesArePlain()
    ensures forall i | 0 <= i < |PROTECTED_NAMES| :: IsPlainName(PROTECTED_NAMES[i])
  {
  }

  lemma SameProtectedNames(name: string)
    ensures name in PROTECTED_KEYS <==> name in PROTECTED_NAMES
  {
  }

  // ---- the graph ----

  /** Everything that is not an array or a plain object is a scalar. */
  datatype Value = Scalar | Ref(id: nat)

  datatype Node = Array(items: seq<Value>) | Object(entries: seq<(string, Value)>)

  type Heap = map<nat, Node>

  datatype Step = Key(name: string) | Index(at: nat)

  type Path = seq<Step>

  datatype Reason = NotAnObject | Protected | Credential

  datatype Issue = Issue(path: Path, reason: Reason)

  ghost predicate Resolves(heap: Heap, v: Value) {
    v.Ref? ==> v.id in heap
  }

  /** Every reference resolves and the keys of an object are distinct. */
  ghost predicate WellFormed(heap: Heap) {
    forall n :: n in heap ==> WellFormedNode(heap, heap[n])
  }

  ghost predicate WellFormedNode(heap: Heap, node: Node) {
    match node
    case Array(items) => forall i :: 0 <= i < |items| ==> Resolves(heap, items[i])
    case Object(entries) =>
      && (forall i :: 0 <= i < |entries| ==> Resolves(heap, entries[i].1))
      && (forall i, j :: 0 <= i < j < |entries| ==> entries[i].0 != entries[j].0)
  }

  ghost function Lookup(entries: seq<(string, Value)>, name: string): Option<Value> {
    if entries == [] then None
    else if entries[0].0 == name then Some(entries[0].1)
    else Lookup(entries[1..], name)
  }

  lemma {:induction false} LookupFinds(entries: seq<(string, Value)>, k: nat)
    requires k < |entries| && forall i, j :: 0 <= i < j < |entries| ==> entries[i].0 != entries[j].0
    ensures Lookup(entries, entries[k].0) == Some(entries[k].1)
  {
    if k > 0 {
      LookupFinds(entries[1..], k - 1);
    }
  }

  ghost function Child(heap: Heap, v: Value, step: Step): Option<Value> {
    if v.Scalar? || v.id !in heap then None
    else match (heap[v.id], step)
      case (Array(items), Index(at)) => if at < |items| then Some(items[at]) else None
      case (Object(entries), Key(name)) => Lookup(entries, name)
      case _ => None
  }

  /** Where a path leads. */
  ghost function Navigate(heap: Heap, v: Value, path: Path): Option<Value>
    decreases |path|
  {
    if path == [] then Some(v)
    else match Child(heap, v, path[0])
      case None => None
      case Some(w) => Navigate(heap, w, path[1..])
  }

  ghost predicate Reachable(heap: Heap, root: nat, n: nat) {
    exists path :: Navigate(heap, Ref(root), path) == Some(Ref(n))
  }

  lemma {:induction false} NavigateThrough(heap: Heap, v: Value, path: Path, step: Step)
    requires Navigate(heap, v, path).Some?
    ensures Navigate(heap, v, path + [step]) == Child(heap, Navigate(heap, v, path).value, step)
    decreases |path|
  {
    if path == [] {
      assert path + [step] == [step];
    } else {
      assert (path + [step])[1..] == path[1..] + [step];
      NavigateThrough(heap, Child(heap, v, path[0]).value, path[1..], step);
    }
  }

  /** The value of one child of a container, by position. */
  ghost function Item(node: Node, k: nat): Value
    requires k < Width(node)
  {
    if node.Array? then node.items[k] else node.entries[k].1
  }

  ghost function Width(node: Node): nat {
    if node.Array? then |node.items| else |node.entries|
  }

  ghost function StepTo(node: Node, k: nat): Step
    requires k < Width(node)
  {
    if node.Array? then Index(k) else Key(node.entries[k].0)
  }

  lemma ChildIsItem(heap: Heap, n: nat, k: nat)
    requires WellFormed(heap) && n in heap && k < Width(heap[n])
    ensures Child(heap, Ref(n), StepTo(heap[n], k)) == Some(Item(heap[n], k))
    ensures Resolves(heap, Item(heap[n], k))
  {
    assert WellFormedNode(heap, heap[n]);
    if heap[n].Object? {
      LookupFinds(heap[n].entries, k);
    }
  }

  /** All children of `n` that are containers are in `seen`. */
  ghost predicate Explored(heap: Heap, n: nat, upTo: nat, seen: set<nat>)
    requires n in heap && upTo <= Width(heap[n])
  {
    forall k :: 0 <= k < upTo && Item(heap[n], k).Ref? ==> Item(heap[n], k).id in seen
  }

  ghost predicate ClosedOver(heap: Heap, inner: set<nat>, seen: set<nat>) {
    forall n :: n in inner ==> n in heap && Explored(heap, n, Width(heap[n]), seen)
  }

  lemma {:induction false} ClosedMeansReached(heap: Heap, v: Value, path: Path, seen: set<nat>)
    requires ClosedOver(heap, seen, seen) && (v.Ref? ==> v.id in seen)
    ensures var w := Navigate(heap, v, path); w.Some? && w.value.Ref? ==> w.value.id in seen
    decreases |path|
  {
    if path != [] {
      var w := Child(heap, v, path[0]);
      if w.Some? {
        ChildIsSomeItem(heap, v.id, path[0]);
        ClosedMeansReached(heap, w.value, path[1..], seen);
      }
    }
  }

  lemma ChildIsSomeItem(heap: Heap, n: nat, step: Step)
    requires n in heap && Child(heap, Ref(n), step).Some?
    ensures exists k :: 0 <= k < Width(heap[n]) && Item(heap[n], k) == Child(heap, Ref(n), step).value
  {
    if heap[n].Object? {
      var k := LookupIndex(heap[n].entries, step.name);
      assert Item(heap[n], k) == heap[n].entries[k].1;
    } else {
      assert Item(heap[n], step.at) == heap[n].items[step.at];
    }
  }

  lemma {:induction false} LookupIndex(entries: seq<(string, Value)>, name: string) returns (k: nat)
    requires Lookup(entries, name).Some?
    ensures k < |entries| && entries[k].1 == Lookup(entries, name).value && entries[k].0 == name
  {
    if entries[0].0 == name {
      k := 0;
    } else {
      k := LookupIndex(entries[1..], name);
      k := k + 1;
    }
  }

  // ---- what an issue is about ----

  /** A forbidden key, by container and position. */
  datatype Offence = Offence(node: nat, at: nat, reason: Reason)

  ghost predicate IsOffence(heap: Heap, root: nat, o: Offence) {
    && o.node in heap && heap[o.node].Object? && o.at < |heap[o.node].entries|
    && match o.reason
       case NotAnObject => false
       case Protected => o.node == root && IsProtected(heap[o.node].entries[o.at].0)
       case Credential => IsCredential(heap[o.node].entries[o.at].0)
  }

  /** The issue's path leads from the root to the offending key. */
  ghost predicate Reports(heap: Heap, root: nat, issue: Issue, o: Offence) {
    && IsOffence(heap, root, o)
    && issue.reason == o.reason
    && |issue.path| > 0
    && Navigate(heap, Ref(root), issue.path[..|issue.path| - 1]) == Some(Ref(o.node))
    && issue.path[|issue.path| - 1] == Key(heap[o.node].entries[o.at].0)
  }

  lemma PathReports(heap: Heap, root: nat, path: Path, id: nat, k: nat, reason: Reason)
    requires IsOffence(heap, root, Offence(id, k, reason)) && Navigate(heap, Ref(root), path) == Some(Ref(id))
    ensures Reports(heap, root, Issue(path + [Key(heap[id].entries[k].0)], reason), Offence(id, k, reason))
  {
    var at := path + [Key(heap[id].entries[k].0)];
    assert at[..|at| - 1] == path;
  }

  /** The offences of one entry, in the order they are reported. */
  ghost function OffencesAt(heap: Heap, root: nat, id: nat, k: nat): seq<Offence>
    requires id in heap && heap[id].Object? && k < |heap[id].entries|
  {
    (if IsOffence(heap, root, Offence(id, k, Protected)) then [Offence(id, k, Protected)] else [])
    + (if IsOffence(heap, root, Offence(id, k, Credential)) then [Offence(id, k, Credential)] else [])
  }

  lemma OffencesAtMeaning(heap: Heap, root: nat, id: nat, k: nat)
    requires id in heap && heap[id].Object? && k < |heap[id].entries|
    ensures forall o :: o in OffencesAt(heap, root, id, k) <==> IsOffence(heap, root, o) && o.node == id && o.at == k
  {
  }

  /** To the offences `before`, `after` adds those of the containers in `done` and of the
      first `upTo` entries of `open`, and no other. */
  ghost predicate Adds(heap: Heap, root: nat, before: seq<Offence>, after: seq<Offence>, done: set<nat>,
                       open: nat, upTo: nat) {
    forall o :: o in after <==>
      o in before || (IsOffence(heap, root, o) && (o.node in done || (o.node == open && o.at < upTo)))
  }

  ghost predicate AddsAll(heap: Heap, root: nat, before: seq<Offence>, after: seq<Offence>, done: set<nat>) {
    forall o :: o in after <==> o in before || (IsOffence(heap, root, o) && o.node in done)
  }

  /** The entries of `id` before `k` are dealt with, and what they lead to. */
  ghost predicate SoFar(heap: Heap, root: nat, id: nat, k: nat, seen0: set<nat>, found0: seq<Offence>,
                        seen: set<nat>, found: seq<Offence>)
    requires id in heap && k <= Width(heap[id])
  {
    && seen0 <= seen && Explored(heap, id, k, seen)
    && ClosedOver(heap, seen - seen0, seen)
    && Adds(heap, root, found0, found, seen - seen0, id, k)
  }

  lemma NotYetReported(heap: Heap, root: nat, id: nat, k: nat, seen0: set<nat>, found0: seq<Offence>,
                       seen: set<nat>, found: seq<Offence>)
    requires id in heap && k < Width(heap[id]) && SoFar(heap, root, id, k, seen0, found0, seen, found)
    requires id in seen0 && forall o :: o in found0 ==> o.node != id
    ensures forall o :: o in found ==> o.node != id || o.at != k
  {
  }

  lemma OneEntryMore(heap: Heap, root: nat, id: nat, k: nat, seen0: set<nat>, found0: seq<Offence>,
                     seen1: set<nat>, found1: seq<Offence>, seen2: set<nat>, found2: seq<Offence>)
    requires id in heap && heap[id].Object? && k < Width(heap[id])
    requires SoFar(heap, root, id, k, seen0, found0, seen1, found1)
    requires seen1 <= seen2 && (Item(heap[id], k).Ref? ==> Item(heap[id], k).id in seen2)
    requires ClosedOver(heap, seen2 - seen1, seen2)
    requires AddsAll(heap, root, found1 + OffencesAt(heap, root, id, k), found2, seen2 - seen1)
    ensures SoFar(heap, root, id, k + 1, seen0, found0, seen2, found2)
  {
    assert seen2 - seen0 == (seen1 - seen0) + (seen2 - seen1);
    assert Adds(heap, root, found0, found2, seen2 - seen0, id, k + 1) by {
      OffencesAtMeaning(heap, root, id, k);
    }
  }

  /** The state of one walk: `issues` and `seen` are the code's, `found` and `visits` record
      what each issue is about and in which order containers are entered. */
  class Walk {
    const heap: Heap
    const root: nat
    var issues: seq<Issue>
    var seen: set<nat>
    ghost var found: seq<Offence>
    ghost var visits: seq<nat>

    constructor (heap: Heap, root: nat)
      requires WellFormed(heap) && root in heap
      ensures this.heap == heap && this.root == root && Valid() && seen == {} && found == []
    {
      this.heap, this.root := heap, root;
      issues, seen, found, visits := [], {}, [], [];
    }

    ghost predicate Valid()
      reads this
    {
      && WellFormed(heap) && root in heap
      && seen <= heap.Keys
      && Distinct(visits) && (forall n :: n in visits <==> n in seen)
      && |found| == |issues| && Distinct(found)
      && (forall i :: 0 <= i < |found| ==> Reports(heap, root, issues[i], found[i]))
      && (forall o :: o in found ==> o.node in seen)
      && (forall n :: n in seen ==> Reachable(heap, root, n))
    }

    /** Enters each unseen container below `entry` once and reports its offences. */
    method Visit(entry: Value, path: Path)
      requires Valid() && Resolves(heap, entry)
      requires Navigate(heap, Ref(root), path) == Some(entry)
      requires if path == [] then entry == Ref(root) && seen == {} else root in seen
      modifies this
      ensures Valid() && old(seen) <= seen
      ensures entry.Ref? ==> entry.id in seen
      ensures ClosedOver(heap, seen - old(seen), seen)
      ensures AddsAll(heap, root, old(found), found, seen - old(seen))
      decreases heap.Keys - seen, 0
    {
      if entry.Scalar? || entry.id in seen { return; }
      Enter(entry.id, path);
      if heap[entry.id].Array? {
        VisitItems(entry.id, path);
      } else {
        VisitEntries(entry.id, path);
      }
    }

    method Enter(id: nat, ghost path: Path)
      requires Valid() && id in heap && id !in seen
      requires Navigate(heap, Ref(root), path) == Some(Ref(id))
      modifies `seen, `visits
      ensures Valid() && seen == old(seen) + {id}
    {
      seen, visits := seen + {id}, visits + [id];
      assert Reachable(heap, root, id);
    }

    ghost predicate Open(id: nat, path: Path)
      reads this
    {
      && Valid() && id in seen && root in seen
      && Navigate(heap, Ref(root), path) == Some(Ref(id))
      && (path == [] <==> id == root)
    }

    method VisitItems(id: nat, path: Path)
      requires Open(id, path) && heap[id].Array?
      modifies this
      ensures Valid() && old(seen) <= seen
      ensures Explored(heap, id, Width(heap[id]), seen)
      ensures ClosedOver(heap, seen - old(seen), seen)
      ensures AddsAll(heap, root, old(found), found, seen - old(seen))
      decreases heap.Keys - seen, 1
    {
      var items := heap[id].items;
      var k := 0;
      while k < |items|
        invariant 0 <= k <= |items|
        invariant Valid() && old(seen) <= seen
        invariant Explored(heap, id, k, seen)
        invariant ClosedOver(heap, seen - old(seen), seen)
        invariant AddsAll(heap, root, old(found), found, seen - old(seen))
      {
        NavigateThrough(heap, Ref(root), path, Index(k));
        ChildIsItem(heap, id, k);
        Visit(items[k], path + [Index(k)]);
        k := k + 1;
      }
    }

    method VisitEntries(id: nat, path: Path)
      requires Open(id, path) && heap[id].Object?
      requires forall o :: o in found ==> o.node != id
      modifies this
      ensures Valid() && old(seen) <= seen
      ensures Explored(heap, id, Width(heap[id]), seen)
      ensures ClosedOver(heap, seen - old(seen), seen)
      ensures Adds(heap, root, old(found), found, seen - old(seen), id, Width(heap[id]))
      decreases heap.Keys - seen, 1, 1
    {
      ghost var seen0, found0 := seen, found;
      var k := 0;
      while k < |heap[id].entries|
        invariant 0 <= k <= |heap[id].entries|
        invariant Valid() && SoFar(heap, root, id, k, seen0, found0, seen, found)
      {
        ghost var seen1, found1 := seen, found;
        NotYetReported(heap, root, id, k, seen0, found0, seen, found);
        VisitEntry(id, k, path);
        OneEntryMore(heap, root, id, k, seen0, found0, seen1, found1, seen, found);
        k := k + 1;
      }
    }

    /** Checks one key of an object and visits what it leads to. */
    method VisitEntry(id: nat, k: nat, path: Path)
      requires Open(id, path) && heap[id].Object? && k < |heap[id].entries|
      requires forall o :: o in found ==> o.node != id || o.at != k
      modifies this
      ensures Valid() && old(seen) <= seen
      ensures Resolves(heap, Item(heap[id], k)) && (Item(heap[id], k).Ref? ==> Item(heap[id], k).id in seen)
      ensures ClosedOver(heap, seen - old(seen), seen)
      ensures AddsAll(heap, root, old(found) + OffencesAt(heap, root, id, k), found, seen - old(seen))
      decreases heap.Keys - seen, 1, 0
    {
      var entry := heap[id].entries[k];
      Report(id, k, path);
      NavigateThrough(heap, Ref(root), path, Key(entry.0));
      ChildIsItem(heap, id, k);
      Visit(entry.1, path + [Key(entry.0)]);
    }

    /** Reports what is wrong with one key of an object. */
    method Report(id: nat, k: nat, path: Path)
      requires Open(id, path) && heap[id].Object? && k < |heap[id].entries|
      requires forall o :: o in found ==> o.node != id || o.at != k
      modifies `issues, `found
      ensures Valid()
      ensures found == old(found) + OffencesAt(heap, root, id, k)
    {
      if |path| == 0 {
        ReportIf(IsProtected(heap[id].entries[k].0), id, k, path, Protected);
      }
      ReportIf(IsCredential(heap[id].entries[k].0), id, k, path, Credential);
    }

    method ReportIf(forbidden: bool, id: nat, k: nat, path: Path, reason: Reason)
      requires Open(id, path) && heap[id].Object? && k < |heap[id].entries|
      requires forbidden == IsOffence(heap, root, Offence(id, k, reason)) && Offence(id, k, reason) !in found
      modifies `issues, `found
      ensures Valid()
      ensures found == old(found) + if forbidden then [Offence(id, k, reason)] else []
    {
      if forbidden {
        PathReports(heap, root, path, id, k, reason);
        Add(Issue(path + [Key(heap[id].entries[k].0)], reason), Offence(id, k, reason));
      }
    }

    method Add(issue: Issue, ghost o: Offence)
      requires Valid() && Reports(heap, root, issue, o) && o !in found && o.node in seen
      modifies `issues, `found
      ensures Valid() && issues == old(issues) + [issue] && found == old(found) + [o]
    {
      issues, found := issues + [issue], found + [o];
    }
  }

  ghost predicate HasCredential(heap: Heap, n: nat) {
    n in heap && heap[n].Object? && exists k :: 0 <= k < |heap[n].entries| && SpellsCredential(heap[n].entries[k].0)
  }

  ghost predicate HasProtected(heap: Heap, n: nat) {
    n in heap && heap[n].Object? && exists k :: 0 <= k < |heap[n].entries| && SpellsProtected(heap[n].entries[k].0)
  }

  /** The root shadows no field and no reachable object carries a credential. */
  ghost predicate IsClean(heap: Heap, root: nat) {
    !HasProtected(heap, root) && forall n :: Reachable(heap, root, n) ==> !HasCredential(heap, n)
  }

  /** One issue per offence: `found[i]` is what `issues[i]` reports, and `found` lists every
      offence of the reachable containers exactly once. */
  ghost predicate Explains(heap: Heap, root: nat, issues: seq<Issue>, found: seq<Offence>) {
    && |found| == |issues| && Distinct(found)
    && (forall i :: 0 <= i < |found| ==> Reports(heap, root, issues[i], found[i]))
    && (forall o :: o in found <==> IsOffence(heap, root, o) && Reachable(heap, root, o.node))
  }

  /** Validates extras. Only an object root is walked; `visits` lists the containers entered. */
  method ValidateExtraParams(heap: Heap, value: Value)
    returns (issues: seq<Issue>, ghost found: seq<Offence>, ghost visits: seq<nat>)
    requires WellFormed(heap) && Resolves(heap, value)
    ensures value.Scalar? || heap[value.id].Array? ==> issues == [Issue([], NotAnObject)]
    ensures value.Ref? && heap[value.id].Object? ==>
      && Explains(heap, value.id, issues, found)
      && Distinct(visits) && (forall n :: n in visits <==> Reachable(heap, value.id, n))
      && (issues == [] <==> IsClean(heap, value.id))
  {
    if value.Scalar? || heap[value.id].Array? {
      return [Issue([], NotAnObject)], [], [];
    }
    var walk := new Walk(heap, value.id);
    walk.Visit(value, []);
    forall n, path | Navigate(heap, value, path) == Some(Ref(n)) ensures n in walk.seen {
      ClosedMeansReached(heap, value, path, walk.seen);
    }
    issues, found, visits := walk.issues, walk.found, walk.visits;
    NoIssuesMeansClean(heap, value.id, issues, found);
  }

  lemma NoIssuesMeansClean(heap: Heap, root: nat, issues: seq<Issue>, found: seq<Offence>)
    requires root in heap && Explains(heap, root, issues, found)
    ensures issues == [] <==> IsClean(heap, root)
  {
    assert Navigate(heap, Ref(root), []) == Some(Ref(root));
    if HasProtected(heap, root) {
      var k :| 0 <= k < |heap[root].entries| && SpellsProtected(heap[root].entries[k].0);
      ProtectedAreCaught(heap[root].entries[k].0);
      assert Offence(root, k, Protected) in found;
    }
    forall n | Reachable(heap, root, n) && HasCredential(heap, n) ensures found != [] {
      var k :| 0 <= k < |heap[n].entries| && SpellsCredential(heap[n].entries[k].0);
      CredentialsAreCaught(heap[n].entries[k].0);
      assert Offence(n, k, Credential) in found;
    }
    if found != [] {
      OffenceIsSpelled(heap, root, found[0]);
    }
  }

  /** What an offence is, in terms of the spelled names. */
  lemma OffenceIsSpelled(heap: Heap, root: nat, o: Offence)
    ensures IsOffence(heap, root, o) <==>
      && o.node in heap && heap[o.node].Object? && o.at < |heap[o.node].entries|
      && var key := heap[o.node].entries[o.at].0;
      (o.reason.Protected? && o.node == root && SpellsProtected(key)) || (o.reason.Credential? && SpellsCredential(key))
  {
    if o.node in heap && heap[o.node].Object? && o.at < |heap[o.node].entries| {
      ProtectedAreCaught(heap[o.node].entries[o.at].0);
      CredentialsAreCaught(heap[o.node].entries[o.at].0);
    }
  }
}
