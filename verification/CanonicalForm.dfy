/** The canonical form of a JSON value: keys sorted at every level, nesting bounded. Two values within
    the bound have the same canonical text exactly when they are equal up to key order. */
module CanonicalForm {
  import opened Wrappers
  import opened Ordering
  import opened JsonText

  // ----- sorting the keys -----

  predicate Ascending(fields: seq<Field>) {
    forall i, j :: 0 <= i < j < |fields| ==> Lex(fields[i].key, fields[j].key)
  }

  function Insert(f: Field, fields: seq<Field>): (r: seq<Field>)
    ensures |r| == |fields| + 1
    ensures forall g :: g in r <==> g == f || g in fields
    decreases |fields|
  {
    if fields == [] || Lex(f.key, fields[0].key) then [f] + fields
    else
      var r := [fields[0]] + Insert(f, fields[1..]);
      assert forall g :: g in r <==> g == fields[0] || g == f || g in fields[1..];
      assert fields == [fields[0]] + fields[1..];
      r
  }

  function SortFields(fields: seq<Field>): (r: seq<Field>)
    ensures |r| == |fields|
    ensures forall g :: g in r <==> g in fields
    decreases |fields|
  {
    if fields == [] then []
    else
      assert fields == [fields[0]] + fields[1..];
      Insert(fields[0], SortFields(fields[1..]))
  }

  lemma {:induction false} InsertAscends(f: Field, fields: seq<Field>)
    requires Ascending(fields) && forall i :: 0 <= i < |fields| ==> fields[i].key != f.key
    ensures Ascending(Insert(f, fields))
    decreases |fields|
  {
    var r := Insert(f, fields);
    if fields == [] {
    } else if Lex(f.key, fields[0].key) {
      forall j | 0 < j < |r| ensures Lex(f.key, r[j].key) {
        if j > 1 {
          LexTransitive(f.key, fields[0].key, fields[j - 1].key);
        }
      }
    } else {
      LexTotal(f.key, fields[0].key);
      var rest := Insert(f, fields[1..]);
      InsertAscends(f, fields[1..]);
      forall j | 0 < j < |r| ensures Lex(fields[0].key, r[j].key) {
        assert r[j] == rest[j - 1] && rest[j - 1] in rest;
      }
      forall i, j | 0 <= i < j < |r| ensures Lex(r[i].key, r[j].key) {
        if i > 0 {
          assert r[i] == rest[i - 1] && r[j] == rest[j - 1];
        }
      }
    }
  }

  lemma {:induction false} SortFieldsAscends(fields: seq<Field>)
    requires DistinctKeys(fields)
    ensures Ascending(SortFields(fields))
    decreases |fields|
  {
    if fields != [] {
      SortFieldsAscends(fields[1..]);
      var rest := SortFields(fields[1..]);
      forall i | 0 <= i < |rest| ensures rest[i].key != fields[0].key {
        assert rest[i] in fields[1..];
      }
      InsertAscends(fields[0], rest);
    }
  }

  lemma AscendingKeysAreDistinct(fields: seq<Field>)
    requires Ascending(fields)
    ensures DistinctKeys(fields)
  {
    forall i, j | 0 <= i < j < |fields| ensures fields[i].key != fields[j].key {
      LexIrreflexive(fields[i].key);
    }
  }

  /** Only one field list in key order has a given set of fields. */
  lemma {:induction false} OneAscendingList(a: seq<Field>, b: seq<Field>)
    requires Ascending(a) && Ascending(b) && forall f :: f in a <==> f in b
    ensures a == b
    decreases |a|
  {
    HeadIsIn(a);
    HeadIsIn(b);
    if a != [] {
      LeastComesFirst(a, b);
      SameRest(a, b);
      SameRest(b, a);
      OneAscendingList(a[1..], b[1..]);
      assert a == [a[0]] + a[1..] && b == [b[0]] + b[1..];
    }
  }

  lemma HeadIsIn(a: seq<Field>)
    ensures a != [] ==> a[0] in a
  {
  }

  lemma LeastComesFirst(a: seq<Field>, b: seq<Field>)
    requires Ascending(a) && Ascending(b) && a != [] && b != [] && a[0] in b && b[0] in a
    ensures a[0] == b[0]
  {
    var i :| 0 <= i < |b| && b[i] == a[0];
    var j :| 0 <= j < |a| && a[j] == b[0];
    if i > 0 && j > 0 {
      LexTransitive(a[0].key, b[0].key, a[0].key);
      LexIrreflexive(a[0].key);
    }
  }

  lemma SameRest(a: seq<Field>, b: seq<Field>)
    requires a != [] && b != [] && Ascending(a) && a[0] == b[0] && forall f :: f in a ==> f in b
    ensures forall f :: f in a[1..] ==> f in b[1..]
  {
    forall f | f in a[1..] ensures f in b[1..] {
      var i :| 0 <= i < |a[1..]| && a[1..][i] == f;
      assert a[i + 1] == f;
      assert Lex(a[0].key, a[i + 1].key);
      LexIrreflexive(f.key);
      assert f in b && b == [b[0]] + b[1..];
    }
  }

  // ----- the canonical form -----

  /** The value with the keys of every object in order. */
  function Normalize(v: Json): Json
    decreases v
  {
    match v
    case Arr(items) => Arr(seq(|items|, i requires 0 <= i < |items| => Normalize(items[i])))
    case Obj(fields) =>
      var sorted := SortFields(fields);
      Obj(seq(|sorted|, i requires 0 <= i < |sorted| =>
        assert sorted[i] in fields;
        Field(sorted[i].key, Normalize(sorted[i].value))))
    case _ => v
  }

  /** Equal up to the order of object keys, at every level. */
  predicate Same(v: Json, w: Json)
    decreases v
  {
    match v
    case Arr(a) => w.Arr? && |a| == |w.items| && forall i :: 0 <= i < |a| ==> Same(a[i], w.items[i])
    case Obj(a) =>
      && w.Obj?
      && (forall i :: 0 <= i < |a| ==> MatchedIn(a[i], w.fields))
      && (forall j :: 0 <= j < |w.fields| ==> MatchedBy(a, w.fields[j]))
    case _ => v == w
  }

  predicate MatchedIn(f: Field, fields: seq<Field>)
    decreases f
  {
    exists j :: 0 <= j < |fields| && fields[j].key == f.key && Same(f.value, fields[j].value)
  }

  predicate MatchedBy(fields: seq<Field>, g: Field)
    decreases fields
  {
    exists i :: 0 <= i < |fields| && fields[i].key == g.key && Same(fields[i].value, g.value)
  }

  lemma {:induction false} NormalizeKeepsWellFormed(v: Json)
    requires WellFormed(v)
    ensures WellFormed(Normalize(v))
    decreases v
  {
    match v
    case Arr(items) =>
      forall i | 0 <= i < |items| ensures WellFormed(Normalize(items[i])) {
        NormalizeKeepsWellFormed(items[i]);
      }
    case Obj(fields) =>
      NormalizedFieldsAscend(fields);
      AscendingKeysAreDistinct(Normalize(v).fields);
      forall i | 0 <= i < |fields| ensures WellFormed(Normalize(v).fields[i].value) {
        var f := SortFields(fields)[i];
        assert f in fields;
        NormalizeKeepsWellFormed(f.value);
      }
    case _ =>
  }

  lemma NormalizedFieldsAscend(fields: seq<Field>)
    requires DistinctKeys(fields)
    ensures Ascending(Normalize(Obj(fields)).fields)
  {
    SortFieldsAscends(fields);
  }

  /** The fields of a normal form are the normal forms of the fields. */
  lemma NormalizedFields(fields: seq<Field>, g: Field)
    ensures (g in Normalize(Obj(fields)).fields <==>
             exists i :: 0 <= i < |fields| && fields[i].key == g.key && Normalize(fields[i].value) == g.value)
  {
    var sorted, normal := SortFields(fields), Normalize(Obj(fields)).fields;
    assert |normal| == |sorted|;
    if g in normal {
      var k :| 0 <= k < |normal| && normal[k] == g;
      assert sorted[k] in fields;
      var i :| 0 <= i < |fields| && fields[i] == sorted[k];
    }
    if i :| 0 <= i < |fields| && fields[i].key == g.key && Normalize(fields[i].value) == g.value {
      assert fields[i] in sorted;
      var k :| 0 <= k < |sorted| && sorted[k] == fields[i];
      assert normal[k] == g;
    }
  }

  /** Normal forms are equal exactly when the values are, up to key order. */
  lemma {:induction false} NormalFormsDecide(v: Json, w: Json)
    requires WellFormed(v) && WellFormed(w)
    ensures Same(v, w) <==> Normalize(v) == Normalize(w)
    decreases v
  {
    if v.Arr? && w.Arr? {
      NormalArraysDecide(v.items, w.items);
    } else if v.Obj? && w.Obj? {
      NormalObjectsDecide(v.fields, w.fields);
    }
  }

  lemma {:induction false} NormalArraysDecide(a: seq<Json>, b: seq<Json>)
    requires WellFormed(Arr(a)) && WellFormed(Arr(b))
    ensures Same(Arr(a), Arr(b)) <==> Normalize(Arr(a)) == Normalize(Arr(b))
    decreases a, 0
  {
    var m, n := Normalize(Arr(a)).items, Normalize(Arr(b)).items;
    if |a| == |b| {
      forall i | 0 <= i < |a| ensures Same(a[i], b[i]) <==> m[i] == n[i] {
        NormalFormsDecide(a[i], b[i]);
      }
    }
    assert Normalize(Arr(a)) == Normalize(Arr(b)) <==> m == n;
  }

  lemma {:induction false} NormalObjectsDecide(a: seq<Field>, b: seq<Field>)
    requires WellFormed(Obj(a)) && WellFormed(Obj(b))
    ensures Same(Obj(a), Obj(b)) <==> Normalize(Obj(a)) == Normalize(Obj(b))
    decreases a, 0
  {
    forall i, j | 0 <= i < |a| && 0 <= j < |b|
      ensures Same(a[i].value, b[j].value) <==> Normalize(a[i].value) == Normalize(b[j].value)
    {
      NormalFormsDecide(a[i].value, b[j].value);
    }
    var m, n := Normalize(Obj(a)).fields, Normalize(Obj(b)).fields;
    NormalizedFieldsAscend(a);
    NormalizedFieldsAscend(b);
    forall f ensures f in m <==> HasField(a, f) {
      NormalizedFields(a, f);
    }
    forall f ensures f in n <==> HasField(b, f) {
      NormalizedFields(b, f);
    }
    ObjectsMatch(a, b);
    if Same(Obj(a), Obj(b)) {
      OneAscendingList(m, n);
    }
    assert Normalize(Obj(a)) == Normalize(Obj(b)) <==> m == n;
  }

  /** The field is, in normal form, one of the fields. */
  predicate HasField(fields: seq<Field>, g: Field) {
    exists i :: 0 <= i < |fields| && fields[i].key == g.key && Normalize(fields[i].value) == g.value
  }

  lemma ObjectsMatch(a: seq<Field>, b: seq<Field>)
    requires forall i, j :: 0 <= i < |a| && 0 <= j < |b| ==>
               (Same(a[i].value, b[j].value) <==> Normalize(a[i].value) == Normalize(b[j].value))
    ensures Same(Obj(a), Obj(b)) <==> forall f :: HasField(a, f) <==> HasField(b, f)
  {
    if Same(Obj(a), Obj(b)) {
      forall f ensures HasField(a, f) <==> HasField(b, f) {
        if i :| 0 <= i < |a| && a[i].key == f.key && Normalize(a[i].value) == f.value {
          assert MatchedIn(a[i], b);
        }
        if j :| 0 <= j < |b| && b[j].key == f.key && Normalize(b[j].value) == f.value {
          assert MatchedBy(a, b[j]);
        }
      }
    }
    if forall f :: HasField(a, f) <==> HasField(b, f) {
      forall i | 0 <= i < |a|
        ensures MatchedIn(a[i], b)
      {
        var f := Field(a[i].key, Normalize(a[i].value));
        assert HasField(a, f) && HasField(b, f);
        var j :| 0 <= j < |b| && b[j].key == f.key && Normalize(b[j].value) == f.value;
      }
      forall j | 0 <= j < |b|
        ensures MatchedBy(a, b[j])
      {
        var f := Field(b[j].key, Normalize(b[j].value));
        assert HasField(b, f) && HasField(a, f);
        var i :| 0 <= i < |a| && a[i].key == f.key && Normalize(a[i].value) == f.value;
      }
      assert Same(Obj(a), Obj(b));
    }
  }

  // ----- nesting -----

  const MAX_NESTED_DEPTH := 128

  function Max(a: int, b: int): int {
    if a > b then a else b
  }

  /** How deep a value nests: scalars and empty containers 0. */
  function Height(v: Json): nat
    decreases v, 1
  {
    match v
    case Arr(items) => ItemsHeight(items)
    case Obj(fields) => FieldsHeight(fields)
    case _ => 0
  }

  function ItemsHeight(items: seq<Json>): nat
    decreases items, 0
  {
    if items == [] then 0 else Max(ItemsHeight(items[..|items| - 1]), 1 + Height(items[|items| - 1]))
  }

  function FieldsHeight(fields: seq<Field>): nat
    decreases fields, 0
  {
    if fields == [] then 0 else Max(FieldsHeight(fields[..|fields| - 1]), 1 + Height(fields[|fields| - 1].value))
  }

  lemma {:induction false} ItemsHeightBound(items: seq<Json>, k: nat)
    ensures ItemsHeight(items) <= k <==> forall i :: 0 <= i < |items| ==> 1 + Height(items[i]) <= k
    decreases |items|
  {
    if items != [] {
      ItemsHeightBound(items[..|items| - 1], k);
    }
  }

  lemma {:induction false} FieldsHeightBound(fields: seq<Field>, k: nat)
    ensures FieldsHeight(fields) <= k <==> forall f :: f in fields ==> 1 + Height(f.value) <= k
    decreases |fields|
  {
    if fields != [] {
      var most, last := fields[..|fields| - 1], fields[|fields| - 1];
      FieldsHeightBound(most, k);
      assert fields == most + [last];
      assert forall f :: f in fields <==> f in most || f == last;
    }
  }

  /** The canonical text of a value met at a nesting depth, unless it goes beyond the bound. */
  function Canonical(v: Json, depth: nat): Option<Text> {
    if depth + Height(v) > MAX_NESTED_DEPTH then None else Some(Render(Normalize(v)))
  }

  /** Canonical text is an identity: within the bound, equal texts mean equal values up to key order,
      and the other way round. */
  lemma {:induction false} CanonicalIdentity(v: Json, w: Json)
    requires WellFormed(v) && WellFormed(w)
    requires Height(v) <= MAX_NESTED_DEPTH && Height(w) <= MAX_NESTED_DEPTH
    ensures Canonical(v, 0) == Canonical(w, 0) <==> Same(v, w)
  {
    NormalFormsDecide(v, w);
    NormalizeKeepsWellFormed(v);
    NormalizeKeepsWellFormed(w);
    if Canonical(v, 0) == Canonical(w, 0) {
      RenderingsDetermine(Normalize(v), Normalize(w));
    }
  }

  // ----- what the canonical text is -----

  /** The keys of every object in ascending order, at every level. */
  predicate Sorted(v: Json) {
    match v
    case Arr(items) => forall i :: 0 <= i < |items| ==> Sorted(items[i])
    case Obj(fields) => Ascending(fields) && forall i :: 0 <= i < |fields| ==> Sorted(fields[i].value)
    case _ => true
  }

  lemma {:induction false} NormalizeSorts(v: Json)
    requires WellFormed(v)
    ensures Sorted(Normalize(v)) && Same(v, Normalize(v))
    decreases v
  {
    match v
    case Arr(items) =>
      forall i | 0 <= i < |items| ensures Sorted(Normalize(items[i])) && Same(items[i], Normalize(items[i])) {
        NormalizeSorts(items[i]);
      }
    case Obj(fields) =>
      forall i | 0 <= i < |fields| ensures Sorted(Normalize(fields[i].value)) && Same(fields[i].value, Normalize(fields[i].value)) {
        NormalizeSorts(fields[i].value);
      }
      NormalizedFieldsAscend(fields);
      NormalFieldsMatch(fields);
    case _ =>
  }

  lemma {:induction false} NormalFieldsMatch(fields: seq<Field>)
    requires forall i :: 0 <= i < |fields| ==> Sorted(Normalize(fields[i].value)) && Same(fields[i].value, Normalize(fields[i].value))
    requires Ascending(Normalize(Obj(fields)).fields)
    ensures Sorted(Normalize(Obj(fields))) && Same(Obj(fields), Normalize(Obj(fields)))
  {
    var normal := Normalize(Obj(fields)).fields;
    forall j | 0 <= j < |normal| ensures Sorted(normal[j].value) && MatchedBy(fields, normal[j]) {
      NormalizedFields(fields, normal[j]);
    }
    forall i | 0 <= i < |fields| ensures MatchedIn(fields[i], normal) {
      var g := Field(fields[i].key, Normalize(fields[i].value));
      NormalizedFields(fields, g);
      var j :| 0 <= j < |normal| && normal[j] == g;
    }
    assert Normalize(Obj(fields)) == Obj(normal);
    hide Normalize;
  }

  /** The canonical text of a value is the JSON text of the same value with its keys in order, and there is one
      exactly when it nests no deeper than 128 levels. */
  lemma {:induction false} CanonicalTextExactly(v: Json)
    requires WellFormed(v)
    ensures Canonical(v, 0).Some? <==> Height(v) <= 128
    ensures Canonical(v, 0).Some? ==> exists w :: Same(v, w) && Sorted(w) && Denotes(Canonical(v, 0).value, w)
  {
    hide *;
    CanonicalUnfolds(v);
    NormalizeSorts(v);
    RenderDenotes(Normalize(v));
  }

  lemma {:induction false} CanonicalUnfolds(v: Json)
    ensures Canonical(v, 0) == if Height(v) > 128 then None else Some(Render(Normalize(v)))
  {
    hide Height, Render, Normalize;
  }
}
