/** What several of the models share. */
module Basics {
  datatype Option<+T> = None | Some(value: T)

  function Min(x: int, y: int): int {
    if x <= y then x else y
  }

  predicate Distinct<T(==)>(s: seq<T>) {
    forall i, j | 0 <= i < j < |s| :: s[i] != s[j]
  }

  function Members<T>(s: seq<T>): set<T> {
    set i | 0 <= i < |s| :: s[i]
  }

  function Get<K, V>(m: map<K, V>, k: K): Option<V> {
    if k in m then Some(m[k]) else None
  }

  lemma SameByGet<K(!new), V(!new)>(a: map<K, V>, b: map<K, V>)
    ensures a == b <==> forall k :: Get(a, k) == Get(b, k)
  {
    if forall k :: Get(a, k) == Get(b, k) {
      forall k ensures k in a <==> k in b {
        assert Get(a, k) == Get(b, k);
      }
      forall k | k in a ensures a[k] == b[k] {
        assert Get(a, k) == Get(b, k);
      }
    }
  }

  lemma Regroup<T>(a: seq<T>, b: seq<T>, c: seq<T>)
    ensures a + b + c == a + (b + c)
  {
  }

  /** The weights of all elements together. */
  function Total<T>(weight: T -> nat, s: seq<T>): nat {
    if s == [] then 0 else Total(weight, s[..|s| - 1]) + weight(s[|s| - 1])
  }

  lemma {:induction false} TotalAfter<T>(weight: T -> nat, s: seq<T>, k: nat, x: T)
    requires k < |s|
    ensures Total(weight, s[k := x]) == Total(weight, s) - weight(s[k]) + weight(x)
  {
    var n := |s| - 1;
    if k < n {
      TotalAfter(weight, s[..n], k, x);
      assert s[k := x][..n] == s[..n][k := x];
    } else {
      assert s[k := x][..n] == s[..n];
    }
  }

  /** The characters JavaScript's `\s` matches. */
  predicate IsSpace(c: char) {
    '\t' <= c <= '\r' || c == ' ' || c == '\U{A0}' || c == '\U{1680}' || '\U{2000}' <= c <= '\U{200A}'
    || c == '\U{2028}' || c == '\U{2029}' || c == '\U{202F}' || c == '\U{205F}' || c == '\U{3000}' || c == '\U{FEFF}'
  }

  const WHITE_SPACE := [9, 10, 11, 12, 13, 32, 160, 5760, 8192, 8193, 8194, 8195, 8196, 8197, 8198, 8199, 8200, 8201,
                        8202, 8232, 8233, 8239, 8287, 12288, 65279]

  /** By code point: the five controls from tab to carriage return, and the space and line separators. */
  lemma WhiteSpaceIs(c: char)
    ensures IsSpace(c) <==> (c as int) in WHITE_SPACE
  {
  }

  predicate IsAlnum(c: char) {
    'a' <= c <= 'z' || '0' <= c <= '9'
  }

  /** `toLowerCase`, as far as letters and digits go: beyond ASCII only the Kelvin sign and the dotted
      capital I lower-case to one. */
  function LowerChar(c: char): string {
    if 'A' <= c <= 'Z' then [((c as int) + 32) as char]
    else if c == '\U{212A}' then "k"
    else if c == '\U{0130}' then "i\U{0307}"
    else [c]
  }

  function Lower(s: string): string {
    if s == "" then "" else LowerChar(s[0]) + Lower(s[1..])
  }

  function Digit(d: nat): char
    requires d < 10
  {
    (d + 48) as char
  }
}
