/**
 Values every component shares: optional and failing results, text trimming, the order of strings, JSON values
 and the item an adapter hands to the store.
 */
module Basics {

  datatype Option<+T> = None | Some(value: T)

  datatype Result<+T, +E> = Success(value: T) | Failure(error: E)

  function Min(a: int, b: int): int {
    if a < b then a else b
  }

  function Max(a: int, b: int): int {
    if a < b then b else a
  }

  /** All of `parts`, one after the other. */
  function Flatten<T>(parts: seq<seq<T>>): seq<T> {
    if parts == [] then [] else Flatten(parts[..|parts| - 1]) + parts[|parts| - 1]
  }

  lemma AppendAssociates<T>(a: seq<T>, b: seq<T>, c: seq<T>)
    ensures a + (b + c) == (a + b) + c
  {}

  lemma AppendNothing<T>(a: seq<T>)
    ensures a + [] == a
  {}

  // ----- JSON -----

  /**
   A JSON value as JavaScript holds it. A number is its own decimal text, which identifies a finite number other than
   -0. An object is its own properties in insertion order; `JUndefined` is JavaScript's undefined.
   */
  datatype Json =
    | JUndefined
    | JNull
    | JBool(flag: bool)
    | JNumber(digits: string)
    | JString(text: string)
    | JArray(elems: seq<Json>)
    | JObject(members: seq<(string, Json)>)

  // ----- items -----

  /** The content fields of an item: what its content hash covers. */
  datatype Content = Content(
    kind: string, canonicalUrl: Option<string>, title: Option<string>, summary: Option<string>,
    authors: seq<string>, publishedAt: Option<string>, updatedAt: Option<string>, fields: Json)

  datatype Item = Item(identity: string, content: Content)

  function Identities(items: seq<Item>): set<string> {
    set i | 0 <= i < |items| :: items[i].identity
  }

  lemma IdentitiesAppend(items: seq<Item>, item: Item)
    ensures Identities(items + [item]) == Identities(items) + {item.identity}
  {
    var more := items + [item];
    assert more[|items|] == item;
    forall id | id in Identities(items) ensures id in Identities(more) {
      var i :| 0 <= i < |items| && items[i].identity == id;
      assert more[i].identity == id;
    }
  }

  ghost predicate DistinctIdentities(items: seq<Item>) {
    forall i, j :: 0 <= i < j < |items| ==> items[i].identity != items[j].identity
  }

  // ----- text -----

  const BOM: char := '\U{FEFF}'

  /** The characters String.prototype.trim removes (the byte order mark is one of them). */
  predicate IsSpace(c: char) {
    || '\U{9}' <= c <= '\U{D}' || c == ' ' || c == '\U{A0}' || c == '\U{1680}' || '\U{2000}' <= c <= '\U{200A}'
    || c == '\U{2028}' || c == '\U{2029}' || c == '\U{202F}' || c == '\U{205F}' || c == '\U{3000}' || c == BOM
  }

  function TrimStart(s: string): string {
    if s != "" && IsSpace(s[0]) then TrimStart(s[1..]) else s
  }

  function TrimEnd(s: string): string {
    if s != "" && IsSpace(s[|s| - 1]) then TrimEnd(s[..|s| - 1]) else s
  }

  function Trim(s: string): string {
    TrimEnd(TrimStart(s))
  }

  predicate Trimmed(s: string) {
    s == "" || (!IsSpace(s[0]) && !IsSpace(s[|s| - 1]))
  }

  lemma TrimTrimmed(s: string)
    requires Trimmed(s)
    ensures Trim(s) == s
  {}

  function StripBom(s: string): string {
    if s != "" && s[0] == BOM then s[1..] else s
  }

  /** Removing a leading byte order mark first changes nothing: trimming removes it too. */
  lemma TrimStripsBom(s: string)
    ensures Trim(StripBom(s)) == Trim(s)
  {}

  // ----- the order of strings -----

  predicate StringLess(a: string, b: string) {
    b != "" && (a == "" || a[0] < b[0] || (a[0] == b[0] && StringLess(a[1..], b[1..])))
  }

  lemma StringLessTotal(a: string, b: string)
    ensures StringLess(a, b) || StringLess(b, a) || a == b
    ensures !(StringLess(a, b) && StringLess(b, a))
    ensures !StringLess(a, a)
  {
    if a != "" && b != "" {
      StringLessTotal(a[1..], b[1..]);
      if a[0] == b[0] && a[1..] == b[1..] {
        assert a == [a[0]] + a[1..];
        assert b == [b[0]] + b[1..];
      }
    }
    if a != "" {
      StringLessIrreflexive(a[1..]);
    }
  }

  lemma StringLessIrreflexive(a: string)
    ensures !StringLess(a, a)
  {}

  lemma StringLessTransitive(a: string, b: string, c: string)
    requires StringLess(a, b) && StringLess(b, c)
    ensures StringLess(a, c)
  {
    if a != "" && a[0] == b[0] && b[0] == c[0] {
      StringLessTransitive(a[1..], b[1..], c[1..]);
    }
  }
}
