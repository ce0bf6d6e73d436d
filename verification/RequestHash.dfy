/** The text a request hash is taken of: the key-sorted copy, turned into text the way the language
    enumerates an object's keys, array indices first and in numeric order. */
module RequestHash {
  import opened Wrappers
  import opened JsonText
  import opened CanonicalForm
  import opened DepthGates
  import SyntheticIds

  // ----- the order of an object's own keys -----

  predicate Digit(u: Unit) {
    48 <= u < 58
  }

  function Numeral(key: Text): nat
    decreases |key|
  {
    if key == [] then 0
    else
      var last := key[|key| - 1];
      10 * Numeral(key[..|key| - 1]) + (if Digit(last) then last - 48 else 0)
  }

  /** The canonical numerals below 2^32 - 1. */
  predicate ArrayIndex(key: Text) {
    && key != [] && (forall i :: 0 <= i < |key| ==> Digit(key[i]))
    && (key[0] == 48 ==> |key| == 1)
    && Numeral(key) < 0xFFFF_FFFF
  }

  /** A number below 2^32 - 1 written in decimal is an array index and stands for itself, and no other text
      is one. */
  lemma {:induction false} ArrayIndexExactly(key: Text, n: nat)
    ensures ArrayIndex(key) && Numeral(key) == n <==> n < 0xFFFF_FFFF && key == Units(SyntheticIds.Decimal(n))
  {
    SyntheticIds.DecimalReads(n);
    var s := SyntheticIds.Decimal(n);
    NumeralOfDecimal(n);
    assert Units(s)[0] == 48 ==> n == 0;
    hide Numeral, SyntheticIds.Decimal;
    if ArrayIndex(key) && Numeral(key) == n {
      NumeralIsDecimal(key);
    }
  }

  lemma {:induction false} NumeralOfDecimal(n: nat)
    ensures Numeral(Units(SyntheticIds.Decimal(n))) == n
    decreases n
  {
    var key := Units(SyntheticIds.Decimal(n));
    if n < 10 {
      assert key[..0] == [];
      assert Numeral([]) == 0;
    } else {
      NumeralOfDecimal(n / 10);
      assert key[..|key| - 1] == Units(SyntheticIds.Decimal(n / 10));
    }
  }

  /** Digits without a leading zero are the decimal numeral of their number. */
  lemma {:induction false} NumeralIsDecimal(key: Text)
    requires key != [] && (forall i :: 0 <= i < |key| ==> Digit(key[i])) && (key[0] == 48 ==> |key| == 1)
    ensures key == Units(SyntheticIds.Decimal(Numeral(key)))
    decreases |key|
  {
    var n := Numeral(key);
    var most := key[..|key| - 1];
    if |key| == 1 {
      assert most == [];
      assert Numeral([]) == 0;
    } else {
      NumeralIsDecimal(most);
      LeadingDigit(most);
      assert n / 10 == Numeral(most) && n % 10 == key[|key| - 1] - 48;
      assert SyntheticIds.Decimal(n) == SyntheticIds.Decimal(n / 10) + [SyntheticIds.Digit(n % 10)];
    }
  }

  lemma {:induction false} LeadingDigit(key: Text)
    requires key != [] && (forall i :: 0 <= i < |key| ==> Digit(key[i])) && key[0] != 48
    ensures Numeral(key) > 0
    decreases |key|
  {
    if |key| > 1 {
      LeadingDigit(key[..|key| - 1]);
    }
  }

  function InsertIndex(f: Field, fields: seq<Field>): (r: seq<Field>)
    ensures |r| == |fields| + 1
    ensures multiset(r) == multiset(fields) + multiset{f}
    decreases |fields|
  {
    if fields == [] || !ArrayIndex(fields[0].key) || Numeral(f.key) < Numeral(fields[0].key) then [f] + fields
    else
      assert fields == [fields[0]] + fields[1..];
      [fields[0]] + InsertIndex(f, fields[1..])
  }

  /** Array indices in numeric order, then the other keys in the order they were added. */
  function OwnOrder(fields: seq<Field>): (r: seq<Field>)
    ensures |r| == |fields|
    ensures multiset(r) == multiset(fields)
    decreases |fields|
  {
    if fields == [] then []
    else
      var last, most := fields[|fields| - 1], fields[..|fields| - 1];
      assert fields == most + [last];
      if ArrayIndex(last.key) then InsertIndex(last, OwnOrder(most)) else OwnOrder(most) + [last]
  }

  /** The fields whose keys are no array indices, as they stand. */
  function Named(fields: seq<Field>): seq<Field>
    decreases |fields|
  {
    if fields == [] then []
    else
      var last, most := fields[|fields| - 1], fields[..|fields| - 1];
      Named(most) + (if ArrayIndex(last.key) then [] else [last])
  }

  /** Array indices, ascending. */
  predicate IndicesAscend(fields: seq<Field>) {
    && (forall i :: 0 <= i < |fields| ==> ArrayIndex(fields[i].key))
    && forall i, j :: 0 <= i < j < |fields| ==> Numeral(fields[i].key) <= Numeral(fields[j].key)
  }

  lemma IndicesUnfold(g: Field, rest: seq<Field>)
    ensures IndicesAscend([g] + rest) <==>
            (ArrayIndex(g.key) && IndicesAscend(rest) && forall x :: x in rest ==> Numeral(g.key) <= Numeral(x.key))
  {
    hide ArrayIndex, Numeral;
    var all := [g] + rest;
    assert all[0] == g && forall i :: 0 <= i < |rest| ==> all[i + 1] == rest[i];
    if IndicesAscend(all) {
      forall x | x in rest ensures Numeral(g.key) <= Numeral(x.key) {
        var i :| 0 <= i < |rest| && rest[i] == x;
        assert all[i + 1] == x;
      }
    }
  }

  lemma {:induction false} InsertIndexAscends(f: Field, indices: seq<Field>, named: seq<Field>) returns (r: seq<Field>)
    requires ArrayIndex(f.key) && IndicesAscend(indices) && (named != [] ==> !ArrayIndex(named[0].key))
    ensures InsertIndex(f, indices + named) == r + named && IndicesAscend(r)
    ensures forall x :: x in r <==> x == f || x in indices
    decreases |indices|
  {
    hide ArrayIndex, Numeral, IndicesAscend;
    if indices == [] {
      assert indices + named == named;
      IndicesUnfold(f, []);
      r := [f];
      assert [f] + [] == r;
    } else {
      var g, rest := indices[0], indices[1..];
      assert indices == [g] + rest;
      assert (indices + named)[0] == g && (indices + named)[1..] == rest + named;
      IndicesUnfold(g, rest);
      if Numeral(f.key) < Numeral(g.key) {
        r := [f] + indices;
        IndicesUnfold(f, indices);
        assert [f] + (indices + named) == r + named;
      } else {
        var r' := InsertIndexAscends(f, rest, named);
        IndicesUnfold(g, r');
        r := [g] + r';
      }
    }
  }

  /** The enumeration: first the array indices in numeric order, then all other keys as they stand. */
  lemma {:induction false} OwnOrderIs(fields: seq<Field>) returns (indices: seq<Field>)
    ensures OwnOrder(fields) == indices + Named(fields) && IndicesAscend(indices)
    decreases |fields|
  {
    hide ArrayIndex, Numeral, InsertIndex;
    indices := [];
    if fields != [] {
      var last, most := fields[|fields| - 1], fields[..|fields| - 1];
      indices := OwnOrderIs(most);
      if ArrayIndex(last.key) {
        NamedHasNoIndex(most);
        indices := InsertIndexAscends(last, indices, Named(most));
        assert Named(fields) == Named(most);
      } else {
        assert indices + Named(most) + [last] == indices + (Named(most) + [last]);
      }
    }
  }

  lemma {:induction false} NamedHasNoIndex(fields: seq<Field>)
    ensures forall i :: 0 <= i < |Named(fields)| ==> !ArrayIndex(Named(fields)[i].key)
    decreases |fields|
  {
    hide ArrayIndex;
    if fields != [] {
      NamedHasNoIndex(fields[..|fields| - 1]);
    }
  }

  lemma {:induction false} OwnOrderSameFields(fields: seq<Field>)
    ensures forall f :: f in OwnOrder(fields) <==> f in fields
  {
    forall f ensures f in OwnOrder(fields) <==> f in fields {
      assert f in OwnOrder(fields) <==> f in multiset(OwnOrder(fields));
      assert f in fields <==> f in multiset(fields);
    }
  }

  /** The value with every object's keys in the order they are enumerated. */
  function Enumerated(v: Json): Json
    decreases v
  {
    match v
    case Arr(items) => Arr(seq(|items|, i requires 0 <= i < |items| => Enumerated(items[i])))
    case Obj(fields) =>
      var ordered := OwnOrder(fields);
      OwnOrderSameFields(fields);
      Obj(seq(|ordered|, i requires 0 <= i < |ordered| =>
        assert ordered[i] in fields;
        Field(ordered[i].key, Enumerated(ordered[i].value))))
    case _ => v
  }

  /** canonicalJsonString: sort deeply, then stringify. */
  function HashText(v: Json): Result<Text, CanonicalError> {
    var sorted := SortedCopy(v, 0);
    if sorted.Err? then Err(sorted.error) else Ok(Render(Enumerated(sorted.value)))
  }

  method CanonicalJsonString(v: Json) returns (r: Result<Text, CanonicalError>)
    ensures r == HashText(v)
  {
    var sorted := DeepSortJson(v, 0);
    if sorted.Err? { return Err(sorted.error); }
    r := Ok(Render(Enumerated(sorted.value)));
  }

  // ----- reordering keys leaves a value the same -----

  /** Each field of one list stands in the other, with a value that is the same. */
  ghost predicate Rearranged(a: seq<Field>, b: seq<Field>) {
    (forall i :: 0 <= i < |a| ==> MatchedIn(a[i], b)) && (forall j :: 0 <= j < |b| ==> MatchedBy(a, b[j]))
  }

  /** A list of fields taken over in another order, every value replaced by one that is the same. */
  lemma TakenOver(a: seq<Field>, taken: seq<Field>, b: seq<Field>)
    requires (forall f :: f in taken <==> f in a) && |b| == |taken|
    requires forall k :: 0 <= k < |b| ==> b[k].key == taken[k].key && Same(taken[k].value, b[k].value)
    ensures Rearranged(a, b)
  {
    hide Same;
    forall i | 0 <= i < |a| ensures MatchedIn(a[i], b) {
      assert a[i] in taken;
      var k :| 0 <= k < |taken| && taken[k] == a[i];
      assert b[k].key == a[i].key;
    }
    forall j | 0 <= j < |b| ensures MatchedBy(a, b[j]) {
      assert taken[j] in a;
      var i :| 0 <= i < |a| && a[i] == taken[j];
      assert a[i].key == b[j].key;
    }
  }

  lemma {:induction false} SameNormalized(v: Json)
    ensures Same(v, Normalize(v))
    decreases v
  {
    match v
    case Arr(items) =>
      forall i | 0 <= i < |items| ensures Same(items[i], Normalize(items[i])) {
        SameNormalized(items[i]);
      }
    case Obj(fields) =>
      var sorted := SortFields(fields);
      forall k | 0 <= k < |sorted| ensures Same(sorted[k].value, Normalize(sorted[k].value)) {
        assert sorted[k] in fields;
        SameNormalized(sorted[k].value);
      }
      TakenOver(fields, sorted, Normalize(v).fields);
    case _ =>
  }

  lemma {:induction false} SameEnumerated(v: Json)
    ensures Same(v, Enumerated(v))
    decreases v
  {
    match v
    case Arr(items) =>
      forall i | 0 <= i < |items| ensures Same(items[i], Enumerated(items[i])) {
        SameEnumerated(items[i]);
      }
    case Obj(fields) =>
      var ordered := OwnOrder(fields);
      OwnOrderSameFields(fields);
      forall k | 0 <= k < |ordered| ensures Same(ordered[k].value, Enumerated(ordered[k].value)) {
        assert ordered[k] in fields;
        SameEnumerated(ordered[k].value);
      }
      TakenOver(fields, ordered, Enumerated(v).fields);
    case _ =>
  }

  lemma {:induction false} EnumeratedKeepsWellFormed(v: Json)
    requires WellFormed(v)
    ensures WellFormed(Enumerated(v))
    decreases v
  {
    match v
    case Arr(items) =>
      forall i | 0 <= i < |items| ensures WellFormed(Enumerated(items[i])) {
        EnumeratedKeepsWellFormed(items[i]);
      }
    case Obj(fields) =>
      var ordered, r := OwnOrder(fields), Enumerated(v).fields;
      OwnOrderSameFields(fields);
      OwnOrderKeepsDistinct(fields);
      forall i | 0 <= i < |r| ensures WellFormed(r[i].value) {
        assert ordered[i] in fields;
        EnumeratedKeepsWellFormed(ordered[i].value);
      }
    case _ =>
  }

  lemma {:induction false} OwnOrderKeepsDistinct(fields: seq<Field>)
    requires DistinctKeys(fields)
    ensures DistinctKeys(OwnOrder(fields))
    decreases |fields|
  {
    if fields != [] {
      var last, most := fields[|fields| - 1], fields[..|fields| - 1];
      OwnOrderKeepsDistinct(most);
      OwnOrderSameFields(most);
      forall i | 0 <= i < |OwnOrder(most)| ensures OwnOrder(most)[i].key != last.key {
        assert OwnOrder(most)[i] in most;
      }
      InsertIndexKeepsDistinct(last, OwnOrder(most));
    }
  }

  lemma {:induction false} InsertIndexKeepsDistinct(f: Field, fields: seq<Field>)
    requires DistinctKeys(fields) && forall i :: 0 <= i < |fields| ==> fields[i].key != f.key
    ensures DistinctKeys(InsertIndex(f, fields))
    decreases |fields|
  {
    if fields != [] && ArrayIndex(fields[0].key) && Numeral(f.key) >= Numeral(fields[0].key) {
      var rest := InsertIndex(f, fields[1..]);
      InsertIndexKeepsDistinct(f, fields[1..]);
      forall i | 0 <= i < |rest| ensures rest[i].key != fields[0].key {
        assert rest[i] in multiset(rest);
        assert rest[i] in fields[1..] || rest[i] == f;
      }
    }
  }

  /** A request hash is taken of texts that are equal exactly when the payloads are, up to key order. */
  lemma {:induction false} RequestIdentity(v: Json, w: Json)
    requires WellFormed(v) && WellFormed(w) && HashText(v).Ok? && HashText(w).Ok?
    ensures HashText(v) == HashText(w) <==> Same(v, w)
  {
    hide Same, WellFormed, Render, Normalize, Enumerated, Height;
    var a, b := Normalize(v), Normalize(w);
    NormalFormsDecide(v, w);
    if HashText(v) == HashText(w) {
      NormalAgain(v);
      NormalAgain(w);
      EnumeratedHasItsNormalForm(a);
      EnumeratedHasItsNormalForm(b);
      RenderingsDetermine(Enumerated(a), Enumerated(b));
    }
  }

  lemma {:induction false} NormalAgain(v: Json)
    requires WellFormed(v)
    ensures WellFormed(Normalize(v)) && Normalize(Normalize(v)) == Normalize(v)
  {
    hide Same, WellFormed, Normalize;
    NormalizeKeepsWellFormed(v);
    SameNormalized(v);
    NormalFormsDecide(v, Normalize(v));
  }

  lemma {:induction false} EnumeratedHasItsNormalForm(v: Json)
    requires WellFormed(v)
    ensures WellFormed(Enumerated(v)) && Normalize(Enumerated(v)) == Normalize(v)
  {
    hide Same, WellFormed, Normalize, Enumerated;
    EnumeratedKeepsWellFormed(v);
    SameEnumerated(v);
    NormalFormsDecide(v, Enumerated(v));
  }
}
