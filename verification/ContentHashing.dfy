/**
 The content hash (server/items.js): the canonical text of an item's columns, and what it tells apart.
 */
module ContentHashing {
  import opened Basics
  import opened CanonicalJson
  import opened ItemStore

  const COLUMNS := ["kind", "canonical_url", "title", "summary", "authors", "published_at", "updated_at", "fields"]

  function Nullable(text: Option<string>): Json {
    if text.None? then JNull else JString(text.value)
  }

  function Texts(texts: seq<string>): Json {
    JArray(seq(|texts|, i requires 0 <= i < |texts| => JString(texts[i])))
  }

  function Values(c: Content): seq<Json> {
    [JString(c.kind), Nullable(c.canonicalUrl), Nullable(c.title), Nullable(c.summary), Texts(c.authors),
     Nullable(c.publishedAt), Nullable(c.updatedAt), c.fields]
  }

  function Columns(values: seq<Json>): seq<Member>
    requires |values| == |COLUMNS|
  {
    seq(|COLUMNS|, i requires 0 <= i < |COLUMNS| => (COLUMNS[i], values[i]))
  }

  /** The content hash of stored content, SHA-256 taken as injective: the canonical text itself. */
  function ContentHash(c: Content): string {
    Canonical(JObject(Columns(Values(c))))
  }

  /** Contents that agree in every column, and in their fields up to key order and undefined members. */
  ghost predicate SameContent(a: Content, b: Content) {
    && a.kind == b.kind && a.canonicalUrl == b.canonicalUrl && a.title == b.title && a.summary == b.summary
    && a.authors == b.authors && a.publishedAt == b.publishedAt && a.updatedAt == b.updatedAt
    && MeaningOf(a.fields) == MeaningOf(b.fields)
  }

  lemma ColumnsDistinct()
    ensures forall i, j :: 0 <= i < j < |COLUMNS| ==> COLUMNS[i] != COLUMNS[j]
  {
    assert |COLUMNS[0]| == 4 && |COLUMNS[1]| == 13 && |COLUMNS[2]| == 5 && |COLUMNS[3]| == 7;
    assert |COLUMNS[4]| == 7 && |COLUMNS[5]| == 12 && |COLUMNS[6]| == 10 && |COLUMNS[7]| == 6;
    assert COLUMNS[3][0] == 's' && COLUMNS[4][0] == 'a';
  }

  /** A map that says what the columns say. */
  ghost predicate Says(m: map<string, Meaning>, members: seq<Member>) {
    && m.Keys == DefinedKeys(members)
    && (forall i :: 0 <= i < |members| ==> members[i].1 != JUndefined)
    && forall i :: 0 <= i < |members| ==> members[i].0 in m && m[members[i].0] == MeaningOf(members[i].1)
  }

  lemma SaysSame(m: map<string, Meaning>, v: seq<Member>, n: map<string, Meaning>, w: seq<Member>)
    requires Says(m, v) && Says(n, w) && |v| == |w| && forall i :: 0 <= i < |v| ==> v[i].0 == w[i].0
    ensures m == n <==> SameMembers(v, w)
  {
    if SameMembers(v, w) { SaysAlike(m, v, n, w); }
    if m == n {
      forall i | 0 <= i < |v| ensures MeaningOf(v[i].1) == MeaningOf(w[i].1) {
        assert m[v[i].0] == n[w[i].0];
      }
    }
  }

  lemma SaysAlike(m: map<string, Meaning>, v: seq<Member>, n: map<string, Meaning>, w: seq<Member>)
    requires Says(m, v) && Says(n, w) && SameMembers(v, w)
    ensures m == n
  {
    SameKeys(v, w);
    forall k | k in m ensures m[k] == n[k] {
      var i :| 0 <= i < |v| && v[i].1 != JUndefined && v[i].0 == k;
      assert w[i].0 == k;
    }
  }

  lemma ColumnsSay(values: seq<Json>)
    requires |values| == |COLUMNS| && forall i :: 0 <= i < |values| ==> values[i] != JUndefined && WellFormed(values[i])
    ensures WellFormed(JObject(Columns(values)))
    ensures Says(MembersMeaning(JObject(Columns(values)), Columns(values)), Columns(values))
  {
    ColumnsDistinct();
    MeaningMembers(JObject(Columns(values)), Columns(values));
  }

  lemma TextsAt(a: seq<string>)
    ensures |MeaningOf(Texts(a)).elems| == |a| && forall i :: 0 <= i < |a| ==>
              MeaningOf(Texts(a)).elems[i] == String(a[i])
  {
    var elems := Texts(a).elems;
    forall i | 0 <= i < |a| ensures MeaningOf(Texts(a)).elems[i] == String(a[i]) {
      assert MeaningOf(elems[i]) == String(a[i]);
    }
  }

  lemma TextsMeaning(a: seq<string>, b: seq<string>)
    ensures MeaningOf(Texts(a)) == MeaningOf(Texts(b)) <==> a == b
  {
    var m, n := MeaningOf(Texts(a)).elems, MeaningOf(Texts(b)).elems;
    TextsAt(a);
    TextsAt(b);
    if m == n {
      forall i | 0 <= i < |a| ensures a[i] == b[i] {
        assert m[i] == n[i];
      }
    }
  }

  /** Column by column, meaning the same is being the same. */
  lemma ValuesSame(a: Content, b: Content)
    ensures SameContent(a, b) <==> forall i :: 0 <= i < 8 ==> MeaningOf(Values(a)[i]) == MeaningOf(Values(b)[i])
  {
    EightAlike(Values(a), Values(b));
    assert MeaningOf(JString(a.kind)) == MeaningOf(JString(b.kind)) <==> a.kind == b.kind;
    NullableMeaning(a.canonicalUrl, b.canonicalUrl);
    NullableMeaning(a.title, b.title);
    NullableMeaning(a.summary, b.summary);
    TextsMeaning(a.authors, b.authors);
    NullableMeaning(a.publishedAt, b.publishedAt);
    NullableMeaning(a.updatedAt, b.updatedAt);
  }

  lemma NullableMeaning(a: Option<string>, b: Option<string>)
    ensures MeaningOf(Nullable(a)) == MeaningOf(Nullable(b)) <==> a == b
  {}

  lemma EightAlike(v: seq<Json>, w: seq<Json>)
    requires |v| == |w| == 8
    ensures (forall i :: 0 <= i < 8 ==> MeaningOf(v[i]) == MeaningOf(w[i])) <==>
            && MeaningOf(v[0]) == MeaningOf(w[0]) && MeaningOf(v[1]) == MeaningOf(w[1])
            && MeaningOf(v[2]) == MeaningOf(w[2]) && MeaningOf(v[3]) == MeaningOf(w[3])
            && MeaningOf(v[4]) == MeaningOf(w[4]) && MeaningOf(v[5]) == MeaningOf(w[5])
            && MeaningOf(v[6]) == MeaningOf(w[6]) && MeaningOf(v[7]) == MeaningOf(w[7])
  {}

  /** The columns of two contents mean the same exactly when the contents are the same. */
  lemma ColumnsSame(a: Content, b: Content)
    ensures SameMembers(Columns(Values(a)), Columns(Values(b))) <==> SameContent(a, b)
  {
    ValuesSame(a, b);
    SameColumns(Values(a), Values(b));
  }

  lemma SameColumns(values: seq<Json>, others: seq<Json>)
    requires |values| == |others| == |COLUMNS| == 8
    ensures SameMembers(Columns(values), Columns(others)) <==>
            forall i :: 0 <= i < 8 ==> MeaningOf(values[i]) == MeaningOf(others[i])
  {
    var v, w := Columns(values), Columns(others);
    assert forall i :: 0 <= i < 8 ==> v[i] == (COLUMNS[i], values[i]) && w[i] == (COLUMNS[i], others[i]);
    if SameMembers(v, w) {
      forall i | 0 <= i < 8 ensures MeaningOf(values[i]) == MeaningOf(others[i]) {
        assert MeaningOf(v[i].1) == MeaningOf(w[i].1);
      }
    }
  }

  /** Change detection is exact: the hashes of stored contents are equal exactly when the contents are the same. */
  lemma ContentHashExact(a: Content, b: Content)
    requires WellFormed(a.fields) && WellFormed(b.fields) && a.fields != JUndefined && b.fields != JUndefined
    ensures ContentHash(a) == ContentHash(b) <==> SameContent(a, b)
  {
    ValuesFine(a);
    ValuesFine(b);
    assert SameMembers(Columns(Values(a)), Columns(Values(b))) <==> SameContent(a, b) by { ColumnsSame(a, b); }
    ColumnsHash(Values(a), Values(b));
  }

  lemma ValuesFine(c: Content)
    requires WellFormed(c.fields) && c.fields != JUndefined
    ensures forall i :: 0 <= i < |Values(c)| ==> Values(c)[i] != JUndefined && WellFormed(Values(c)[i])
  {}

  lemma ColumnsHash(values: seq<Json>, others: seq<Json>)
    requires |values| == |others| == |COLUMNS|
    requires forall i :: 0 <= i < |values| ==> values[i] != JUndefined && WellFormed(values[i])
    requires forall i :: 0 <= i < |others| ==> others[i] != JUndefined && WellFormed(others[i])
    ensures Canonical(JObject(Columns(values))) == Canonical(JObject(Columns(others)))
            <==> SameMembers(Columns(values), Columns(others))
  {
    ColumnsSay(values);
    ColumnsSay(others);
    TextsOfObjects(Columns(values), Columns(others));
  }

  /** Objects with the same keys have the same text exactly when their members mean the same. */
  lemma TextsOfObjects(v: seq<Member>, w: seq<Member>)
    requires WellFormed(JObject(v)) && WellFormed(JObject(w))
    requires Says(MembersMeaning(JObject(v), v), v) && Says(MembersMeaning(JObject(w), w), w)
    requires |v| == |w| && forall i :: 0 <= i < |v| ==> v[i].0 == w[i].0
    ensures Canonical(JObject(v)) == Canonical(JObject(w)) <==> SameMembers(v, w)
  {
    var m, n := MembersMeaning(JObject(v), v), MembersMeaning(JObject(w), w);
    assert m == n <==> SameMembers(v, w) by { SaysSame(m, v, n, w); }
    CanonicalExact(JObject(v), JObject(w));
  }

  /**
   Change detection in the store: an item offered again is updated exactly when its content differs, column by column
   and in its fields up to key order and undefined members, from the content the live row holds.
   */
  lemma UpdatedExactlyWhenChanged(s: Store, src: Origin, it: Item, at: int, run: Option<string>)
    requires Inv(ContentHash, s) && (src.key, it.identity) in s.rows && s.rows[(src.key, it.identity)].removed.None?
    requires var fields := s.rows[(src.key, it.identity)].content.fields; WellFormed(fields) && fields != JUndefined
    requires WellFormed(it.content.fields)
    ensures var outcome := IngestOne(ContentHash, s, src, it, at, run).1;
            && (outcome == Unchanged <==> SameContent(s.rows[(src.key, it.identity)].content, Stored(it.content)))
            && (outcome == Updated <==> !SameContent(s.rows[(src.key, it.identity)].content, Stored(it.content)))
  {
    var row := s.rows[(src.key, it.identity)];
    assert History(ContentHash, row, s.revisions[(src.key, it.identity)]);
    OutcomeByHash(ContentHash, s, src, it, at, run);
    ContentHashExact(row.content, Stored(it.content));
  }

  lemma OutcomeByHash(h: Hash, s: Store, src: Origin, it: Item, at: int, run: Option<string>)
    requires Inv(h, s) && (src.key, it.identity) in s.rows && s.rows[(src.key, it.identity)].removed.None?
    ensures var same := h(s.rows[(src.key, it.identity)].content) == h(Stored(it.content));
            IngestOne(h, s, src, it, at, run).1 == if same then Unchanged else Updated
  {
    assert History(h, s.rows[(src.key, it.identity)], s.revisions[(src.key, it.identity)]);
  }
}
