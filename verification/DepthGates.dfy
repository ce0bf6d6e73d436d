/** The three recursions over a JSON value that stop at a nesting bound, as the service runs them, and
    the identities built on their results. */
module DepthGates {
  import opened Wrappers
  import opened JsonText
  import opened CanonicalForm

  const MAX_CANONICAL_DEPTH := 128

  datatype CanonicalError = DepthExceeded

  // ----- what the loops accumulate -----

  /** The pieces of a text, joined. */
  function Joined(parts: seq<Text>): Text
    decreases |parts|
  {
    if parts == [] then [] else Joined(parts[..|parts| - 1]) + parts[|parts| - 1]
  }

  lemma {:induction false} JoinedAppends(parts: seq<Text>, part: Text)
    ensures Joined(parts + [part]) == Joined(parts) + part
  {
  }

  /** An array's or object's text between its brackets. */
  function ArrayBody(items: seq<Json>): Text {
    if items == [] then [] else Render(items[0]) + ItemsTail(items[1..])
  }

  function FieldText(f: Field): Text {
    Quote(f.key) + [COLON] + Render(f.value)
  }

  function ObjectBody(fields: seq<Field>): Text {
    if fields == [] then [] else FieldText(fields[0]) + FieldsTail(fields[1..])
  }

  function Comma(wanted: bool): Text {
    if wanted then [COMMA] else []
  }

  lemma {:induction false} ItemsTailAppends(items: seq<Json>, w: Json)
    ensures ItemsTail(items + [w]) == ItemsTail(items) + [COMMA] + Render(w)
    decreases |items|
  {
    hide Render;
    if items == [] {
      assert (items + [w])[1..] == [];
    } else {
      assert (items + [w])[1..] == items[1..] + [w];
      ItemsTailAppends(items[1..], w);
    }
  }

  lemma {:induction false} FieldsTailAppends(fields: seq<Field>, f: Field)
    ensures FieldsTail(fields + [f]) == FieldsTail(fields) + [COMMA] + FieldText(f)
    decreases |fields|
  {
    hide Render, Quote;
    if fields == [] {
      assert (fields + [f])[1..] == [];
      assert FieldsTail([f]) == [COMMA] + Quote(f.key) + [COLON] + Render(f.value) + FieldsTail([]);
    } else {
      assert (fields + [f])[1..] == fields[1..] + [f];
      FieldsTailAppends(fields[1..], f);
    }
  }

  lemma {:induction false} ArrayBodyAppends(items: seq<Json>, w: Json)
    ensures ArrayBody(items + [w]) == ArrayBody(items) + Comma(items != []) + Render(w)
  {
    hide Render;
    if items == [] {
      assert (items + [w])[1..] == [];
    } else {
      assert (items + [w])[1..] == items[1..] + [w];
      ItemsTailAppends(items[1..], w);
    }
  }

  lemma ObjectBodyAppends(fields: seq<Field>, f: Field)
    ensures ObjectBody(fields + [f]) == ObjectBody(fields) + Comma(fields != []) + FieldText(f)
  {
    hide FieldText;
    if fields == [] {
      assert (fields + [f])[1..] == [];
    } else {
      assert (fields + [f])[1..] == fields[1..] + [f];
      FieldsTailAppends(fields[1..], f);
    }
  }

  lemma {:induction false} RenderByBody(v: Json)
    ensures v.Arr? ==> Render(v) == [OPEN_BRACKET] + ArrayBody(v.items) + [CLOSE_BRACKET]
    ensures v.Obj? ==> Render(v) == [OPEN_BRACE] + ObjectBody(v.fields) + [CLOSE_BRACE]
  {
  }

  // ----- the recursions -----

  /** The depth the measuring recursion reports: it looks no further than one level past the bound. */
  function Measured(v: Json, depth: nat): nat {
    if depth > MAX_NESTED_DEPTH then depth
    else if depth + Height(v) > MAX_NESTED_DEPTH then MAX_NESTED_DEPTH + 1
    else depth + Height(v)
  }

  method MeasureDepth(v: Json, depth: nat) returns (d: nat)
    ensures d == Measured(v, depth)
    decreases v
  {
    d := depth;
    if depth > MAX_NESTED_DEPTH { return; }
    if v.Arr? {
      for i := 0 to |v.items|
        invariant d == if depth + ItemsHeight(v.items[..i]) > MAX_NESTED_DEPTH then MAX_NESTED_DEPTH + 1
                       else depth + ItemsHeight(v.items[..i])
      {
        var child := MeasureDepth(v.items[i], depth + 1);
        if child > d { d := child; }
        assert v.items[..i + 1][..i] == v.items[..i];
      }
      assert v.items[..|v.items|] == v.items;
    } else if v.Obj? {
      for i := 0 to |v.fields|
        invariant d == if depth + FieldsHeight(v.fields[..i]) > MAX_NESTED_DEPTH then MAX_NESTED_DEPTH + 1
                       else depth + FieldsHeight(v.fields[..i])
      {
        var child := MeasureDepth(v.fields[i].value, depth + 1);
        if child > d { d := child; }
        assert v.fields[..i + 1][..i] == v.fields[..i];
      }
      assert v.fields[..|v.fields|] == v.fields;
    }
  }

  method BoundedCanonicalJson(v: Json, depth: nat) returns (r: Option<Text>)
    ensures r == Canonical(v, depth)
    decreases v, 1
  {
    if depth > MAX_NESTED_DEPTH { return None; }
    if v.Arr? {
      r := CanonicalArray(v.items, depth);
    } else if v.Obj? {
      r := CanonicalObject(v.fields, depth);
    } else {
      r := Some(Render(v));
    }
  }

  /** What the recursion promises of the elements and the fields of a container. */
  lemma NormalItems(items: seq<Json>)
    ensures Normalize(Arr(items)).Arr? && |Normalize(Arr(items)).items| == |items|
    ensures forall i :: 0 <= i < |items| ==> Normalize(Arr(items)).items[i] == Normalize(items[i])
  {
  }

  lemma {:induction false} NormalFields(fields: seq<Field>)
    ensures Normalize(Obj(fields)).Obj? && |Normalize(Obj(fields)).fields| == |SortFields(fields)|
    ensures forall i :: 0 <= i < |SortFields(fields)| ==>
              (Normalize(Obj(fields)).fields[i] ==
               Field(SortFields(fields)[i].key, Normalize(SortFields(fields)[i].value)))
  {
  }

  lemma ArrayFits(items: seq<Json>, room: nat)
    ensures Height(Arr(items)) <= room <==> forall i :: 0 <= i < |items| ==> 1 + Height(items[i]) <= room
  {
    ItemsHeightBound(items, room);
  }

  lemma {:induction false} ObjectFits(fields: seq<Field>, room: nat)
    ensures (Height(Obj(fields)) <= room <==>
             forall i :: 0 <= i < |SortFields(fields)| ==> 1 + Height(SortFields(fields)[i].value) <= room)
  {
    FieldsHeightBound(fields, room);
    if forall i :: 0 <= i < |SortFields(fields)| ==> 1 + Height(SortFields(fields)[i].value) <= room {
      forall f | f in fields ensures 1 + Height(f.value) <= room {
        assert f in SortFields(fields);
      }
    }
    forall i | 0 <= i < |SortFields(fields)| ensures SortFields(fields)[i] in fields {
    }
  }

  /** A container has a canonical text exactly when its children have, and then theirs make it up. */
  lemma CanonicalArrayByItems(items: seq<Json>, depth: nat)
    requires depth <= MAX_NESTED_DEPTH
    ensures Normalize(Arr(items)).Arr? && |Normalize(Arr(items)).items| == |items|
    ensures forall i :: 0 <= i < |items| && Canonical(items[i], depth + 1).Some? ==>
              Canonical(items[i], depth + 1).value == Render(Normalize(Arr(items)).items[i])
    ensures Canonical(Arr(items), depth) ==
            if forall i :: 0 <= i < |items| ==> Canonical(items[i], depth + 1).Some?
            then Some([OPEN_BRACKET] + ArrayBody(Normalize(Arr(items)).items) + [CLOSE_BRACKET]) else None
  {
    NormalItems(items);
    ArrayFits(items, MAX_NESTED_DEPTH - depth);
    RenderByBody(Normalize(Arr(items)));
    hide Render, Normalize, Height, ArrayBody;
  }

  lemma {:induction false} CanonicalObjectByFields(fields: seq<Field>, depth: nat)
    requires depth <= MAX_NESTED_DEPTH
    ensures Normalize(Obj(fields)).Obj? && |Normalize(Obj(fields)).fields| == |SortFields(fields)|
    ensures forall i :: 0 <= i < |SortFields(fields)| ==>
              Normalize(Obj(fields)).fields[i].key == SortFields(fields)[i].key
    ensures forall i :: 0 <= i < |SortFields(fields)| && Canonical(SortFields(fields)[i].value, depth + 1).Some? ==>
              Canonical(SortFields(fields)[i].value, depth + 1).value == Render(Normalize(Obj(fields)).fields[i].value)
    ensures Canonical(Obj(fields), depth) ==
            if forall i :: 0 <= i < |SortFields(fields)| ==> Canonical(SortFields(fields)[i].value, depth + 1).Some?
            then Some([OPEN_BRACE] + ObjectBody(Normalize(Obj(fields)).fields) + [CLOSE_BRACE]) else None
  {
    NormalFields(fields);
    ObjectFits(fields, MAX_NESTED_DEPTH - depth);
    RenderByBody(Normalize(Obj(fields)));
    hide Render, Normalize, Height, ObjectBody;
  }

  method CanonicalArray(items: seq<Json>, depth: nat) returns (r: Option<Text>)
    requires depth <= MAX_NESTED_DEPTH
    ensures r == Canonical(Arr(items), depth)
    decreases items, 0
  {
    hide *;
    CanonicalArrayByItems(items, depth);
    ghost var normal := Normalize(Arr(items)).items;
    var parts := [[OPEN_BRACKET]];
    ArrayOpens();
    for i := 0 to |items|
      invariant Joined(parts) == [OPEN_BRACKET] + ArrayBody(normal[..i])
      invariant forall j :: 0 <= j < i ==> Canonical(items[j], depth + 1).Some?
    {
      ghost var before := parts;
      if i > 0 { parts := parts + [[COMMA]]; }
      var child := BoundedCanonicalJson(items[i], depth + 1);
      if child.None? { return None; }
      parts := parts + [child.value];
      ArrayGrows(before, parts, normal, i);
    }
    JoinedAppends(parts, [CLOSE_BRACKET]);
    assert normal[..|items|] == normal;
    r := Some(Joined(parts + [[CLOSE_BRACKET]]));
  }

  lemma ArrayOpens()
    ensures Joined([[OPEN_BRACKET]]) == [OPEN_BRACKET] + ArrayBody([])
    ensures Joined([[OPEN_BRACE]]) == [OPEN_BRACE] + ObjectBody([])
  {
  }

  lemma {:induction false} ArrayGrows(before: seq<Text>, parts: seq<Text>, normal: seq<Json>, i: nat)
    requires i < |normal| && Joined(before) == [OPEN_BRACKET] + ArrayBody(normal[..i])
    requires parts == (if i > 0 then before + [[COMMA]] else before) + [Render(normal[i])]
    ensures Joined(parts) == [OPEN_BRACKET] + ArrayBody(normal[..i + 1])
  {
    hide Render, ArrayBody, Joined;
    JoinedAppends(before, [COMMA]);
    JoinedAppends(if i > 0 then before + [[COMMA]] else before, Render(normal[i]));
    ArrayBodyAppends(normal[..i], normal[i]);
    assert normal[..i + 1] == normal[..i] + [normal[i]];
  }

  method CanonicalObject(fields: seq<Field>, depth: nat) returns (r: Option<Text>)
    requires depth <= MAX_NESTED_DEPTH
    ensures r == Canonical(Obj(fields), depth)
    decreases fields, 0
  {
    hide *;
    CanonicalObjectByFields(fields, depth);
    ghost var normal := Normalize(Obj(fields)).fields;
    var sorted := SortFields(fields);
    var parts := [[OPEN_BRACE]];
    ArrayOpens();
    for i := 0 to |sorted|
      invariant Joined(parts) == [OPEN_BRACE] + ObjectBody(normal[..i])
      invariant forall j :: 0 <= j < i ==> Canonical(sorted[j].value, depth + 1).Some?
    {
      ghost var before := parts;
      if i > 0 { parts := parts + [[COMMA]]; }
      assert sorted[i] in fields;
      var child := BoundedCanonicalJson(sorted[i].value, depth + 1);
      if child.None? { return None; }
      parts := parts + [Quote(sorted[i].key), [COLON], child.value];
      ObjectGrows(before, parts, normal, i);
    }
    JoinedAppends(parts, [CLOSE_BRACE]);
    assert normal[..|sorted|] == normal;
    r := Some(Joined(parts + [[CLOSE_BRACE]]));
  }

  lemma {:induction false} ObjectGrows(before: seq<Text>, parts: seq<Text>, normal: seq<Field>, i: nat)
    requires i < |normal| && Joined(before) == [OPEN_BRACE] + ObjectBody(normal[..i])
    requires parts == (if i > 0 then before + [[COMMA]] else before) +
                      [Quote(normal[i].key), [COLON], Render(normal[i].value)]
    ensures Joined(parts) == [OPEN_BRACE] + ObjectBody(normal[..i + 1])
  {
    hide Render, Quote, ObjectBody, Joined;
    var key, value := Quote(normal[i].key), Render(normal[i].value);
    var start := if i > 0 then before + [[COMMA]] else before;
    JoinedAppends(before, [COMMA]);
    JoinedAppends(start, key);
    JoinedAppends(start + [key], [COLON]);
    JoinedAppends(start + [key] + [[COLON]], value);
    assert parts == start + [key] + [[COLON]] + [value];
    ObjectBodyAppends(normal[..i], normal[i]);
    assert normal[..i + 1] == normal[..i] + [normal[i]];
  }

  /** The sorted copy of a value met at a nesting depth, or an error past the bound. */
  function SortedCopy(v: Json, depth: nat): Result<Json, CanonicalError> {
    if depth + Height(v) > MAX_CANONICAL_DEPTH then Err(DepthExceeded) else Ok(Normalize(v))
  }

  lemma SortedCopyByItems(items: seq<Json>, depth: nat)
    requires depth <= MAX_CANONICAL_DEPTH
    ensures Normalize(Arr(items)).Arr? && |Normalize(Arr(items)).items| == |items|
    ensures forall i :: 0 <= i < |items| && SortedCopy(items[i], depth + 1).Ok? ==>
              SortedCopy(items[i], depth + 1).value == Normalize(Arr(items)).items[i]
    ensures SortedCopy(Arr(items), depth) ==
            if forall i :: 0 <= i < |items| ==> SortedCopy(items[i], depth + 1).Ok?
            then Ok(Normalize(Arr(items))) else Err(DepthExceeded)
  {
    NormalItems(items);
    ArrayFits(items, MAX_CANONICAL_DEPTH - depth);
    hide Normalize, Height;
  }

  lemma {:induction false} SortedCopyByFields(fields: seq<Field>, depth: nat)
    requires depth <= MAX_CANONICAL_DEPTH
    ensures Normalize(Obj(fields)).Obj? && |Normalize(Obj(fields)).fields| == |SortFields(fields)|
    ensures forall i :: 0 <= i < |SortFields(fields)| ==>
              Normalize(Obj(fields)).fields[i].key == SortFields(fields)[i].key
    ensures forall i :: 0 <= i < |SortFields(fields)| && SortedCopy(SortFields(fields)[i].value, depth + 1).Ok? ==>
              SortedCopy(SortFields(fields)[i].value, depth + 1).value == Normalize(Obj(fields)).fields[i].value
    ensures SortedCopy(Obj(fields), depth) ==
            if forall i :: 0 <= i < |SortFields(fields)| ==> SortedCopy(SortFields(fields)[i].value, depth + 1).Ok?
            then Ok(Normalize(Obj(fields))) else Err(DepthExceeded)
  {
    NormalFields(fields);
    ObjectFits(fields, MAX_CANONICAL_DEPTH - depth);
    hide Normalize, Height;
  }

  /** The request hash's canonicaliser. */
  method DeepSortJson(v: Json, depth: nat) returns (r: Result<Json, CanonicalError>)
    ensures r == SortedCopy(v, depth)
    decreases v, 1
  {
    if depth > MAX_CANONICAL_DEPTH { return Err(DepthExceeded); }
    if v.Arr? {
      r := DeepSortItems(v.items, depth);
    } else if v.Obj? {
      r := DeepSortFields(v.fields, depth);
    } else {
      r := Ok(v);
    }
  }

  method DeepSortItems(items: seq<Json>, depth: nat) returns (r: Result<Json, CanonicalError>)
    requires depth <= MAX_CANONICAL_DEPTH
    ensures r == SortedCopy(Arr(items), depth)
    decreases items, 0
  {
    hide *;
    SortedCopyByItems(items, depth);
    ghost var normal := Normalize(Arr(items)).items;
    var out: seq<Json> := [];
    for i := 0 to |items|
      invariant out == normal[..i]
      invariant forall j :: 0 <= j < i ==> SortedCopy(items[j], depth + 1).Ok?
    {
      var child := DeepSortJson(items[i], depth + 1);
      if child.Err? { return Err(DepthExceeded); }
      out := out + [child.value];
    }
    assert normal[..|items|] == normal;
    r := Ok(Arr(out));
  }

  method DeepSortFields(fields: seq<Field>, depth: nat) returns (r: Result<Json, CanonicalError>)
    requires depth <= MAX_CANONICAL_DEPTH
    ensures r == SortedCopy(Obj(fields), depth)
    decreases fields, 0
  {
    hide *;
    SortedCopyByFields(fields, depth);
    ghost var normal := Normalize(Obj(fields)).fields;
    var sorted := SortFields(fields);
    var out: seq<Field> := [];
    for i := 0 to |sorted|
      invariant out == normal[..i]
      invariant forall j :: 0 <= j < i ==> SortedCopy(sorted[j].value, depth + 1).Ok?
    {
      assert sorted[i] in fields;
      var child := DeepSortJson(sorted[i].value, depth + 1);
      if child.Err? { return Err(DepthExceeded); }
      out := out + [Field(sorted[i].key, child.value)];
    }
    assert normal[..|sorted|] == normal;
    r := Ok(Obj(out));
  }

  /** The three gates agree: a value the measurement lets through has a canonical text and a sorted
      copy, and no other value has either. */
  method GatesAgree(v: Json) returns (depth: nat, canonical: Option<Text>, sorted: Result<Json, CanonicalError>)
    ensures (depth <= MAX_NESTED_DEPTH) == canonical.Some? == sorted.Ok? == (Height(v) <= 128)
    ensures canonical.Some? ==> canonical.value == Render(sorted.value)
  {
    depth := MeasureDepth(v, 0);
    canonical := BoundedCanonicalJson(v, 0);
    sorted := DeepSortJson(v, 0);
  }

  // ----- the identities -----

  function Texts(parts: seq<Text>): seq<Json> {
    seq(|parts|, i requires 0 <= i < |parts| => Str(parts[i]))
  }

  /** A namespaced idempotency key is hashed from text that determines profile, account, operation and
      the caller's own key: the same raw key cannot meet itself in another profile or operation. */
  lemma NamespacesNeverCollide(parts: seq<Text>, parts': seq<Text>)
    ensures Render(Arr(Texts(parts))) == Render(Arr(Texts(parts'))) <==> parts == parts'
  {
    if Render(Arr(Texts(parts))) == Render(Arr(Texts(parts'))) {
      RenderingsDetermine(Arr(Texts(parts)), Arr(Texts(parts')));
      assert |parts| == |Texts(parts)| == |Texts(parts')|;
      forall i | 0 <= i < |parts| ensures parts[i] == parts'[i] {
        assert Texts(parts)[i] == Texts(parts')[i];
      }
    }
  }

  const RECEIVED_AT: Text := Units("receivedAt")
  const RAW_CHANGE: Text := Units("rawChange")
  const OTHER: Text := Units("other")

  predicate Volatile(key: Text) {
    key == RECEIVED_AT || key == RAW_CHANGE
  }

  function StableFields(fields: seq<Field>): (r: seq<Field>)
    ensures forall f :: f in r <==> f in fields && !Volatile(f.key)
    decreases |fields|
  {
    if fields == [] then []
    else
      assert fields == [fields[0]] + fields[1..];
      if Volatile(fields[0].key) then StableFields(fields[1..]) else [fields[0]] + StableFields(fields[1..])
  }

  lemma StableFieldsUnfold(fields: seq<Field>, i: nat)
    requires i <= |fields|
    ensures i == |fields| ==> StableFields(fields[i..]) == []
    ensures i < |fields| ==> (StableFields(fields[i..]) ==
            (if Volatile(fields[i].key) then [] else [fields[i]]) + StableFields(fields[i + 1..]))
  {
  }

  method ExtractStableFields(update: Json) returns (r: Option<Json>)
    ensures r == if update.Obj? then Some(Obj(StableFields(update.fields))) else None
  {
    hide *;
    if !update.Obj? { return None; }
    var out: seq<Field> := [];
    assert update.fields[0..] == update.fields;
    for i := 0 to |update.fields|
      invariant out + StableFields(update.fields[i..]) == StableFields(update.fields)
    {
      StableFieldsUnfold(update.fields, i);
      if !Volatile(update.fields[i].key) {
        out := out + [update.fields[i]];
      }
    }
    StableFieldsUnfold(update.fields, |update.fields|);
    assert out == StableFields(update.fields);
    r := Some(Obj(out));
  }

  lemma {:induction false} StableFieldsStayDistinct(fields: seq<Field>)
    requires DistinctKeys(fields)
    ensures DistinctKeys(StableFields(fields))
    decreases |fields|
  {
    if fields != [] {
      StableFieldsStayDistinct(fields[1..]);
      var rest := StableFields(fields[1..]);
      forall i | 0 <= i < |rest| ensures rest[i].key != fields[0].key {
        assert rest[i] in fields[1..];
      }
    }
  }

  lemma {:induction false} StableRecordIsWellFormed(fields: seq<Field>)
    requires WellFormed(Obj(fields))
    ensures WellFormed(Obj(StableFields(fields)))
  {
    StableFieldsStayDistinct(fields);
    var stable := StableFields(fields);
    forall i | 0 <= i < |stable| ensures WellFormed(stable[i].value) {
      assert stable[i] in fields;
    }
  }

  /** What is hashed to tell one update of a family without an identity of its own from another. */
  function FallbackTuple(phone: Text, account: Text, canonical: Text): Json {
    Arr(Texts([OTHER, phone, account, canonical]))
  }

  method FallbackDedupText(phone: Text, account: Text, update: Json) returns (r: Option<Text>)
    ensures r == FallbackText(phone, account, update)
  {
    var stable := ExtractStableFields(update);
    if stable.None? { return None; }
    var canonical := BoundedCanonicalJson(stable.value, 0);
    if canonical.None? { return None; }
    r := Some(Render(FallbackTuple(phone, account, canonical.value)));
  }

  function FallbackText(phone: Text, account: Text, update: Json): Option<Text> {
    if !update.Obj? then None
    else
      var canonical := Canonical(Obj(StableFields(update.fields)), 0);
      if canonical.None? then None else Some(Render(FallbackTuple(phone, account, canonical.value)))
  }

  lemma FallbackTupleDecides(p: Text, a: Text, c: Text, p': Text, a': Text, c': Text)
    ensures Render(FallbackTuple(p, a, c)) == Render(FallbackTuple(p', a', c')) <==> p == p' && a == a' && c == c'
  {
    hide Render, Texts;
    var t, t' := [OTHER, p, a, c], [OTHER, p', a', c'];
    NamespacesNeverCollide(t, t');
    assert t[1] == p && t[2] == a && t[3] == c && t'[1] == p' && t'[2] == a' && t'[3] == c';
  }

  /** Two records say the same under this key, up to key order further down, or neither has it. */
  predicate AgreeOn(fields: seq<Field>, fields': seq<Field>, key: Text) {
    && (forall f :: f in fields && f.key == key ==> exists g :: g in fields' && g.key == key && Same(f.value, g.value))
    && (forall g :: g in fields' && g.key == key ==> exists f :: f in fields && f.key == key && Same(f.value, g.value))
  }

  /** The record says at least as much as the other under these keys. */
  predicate Covers(fields: seq<Field>, fields': seq<Field>) {
    forall f :: f in fields ==> exists g :: g in fields' && g.key == f.key && Same(f.value, g.value)
  }

  predicate CoveredBy(fields: seq<Field>, fields': seq<Field>) {
    forall g :: g in fields' ==> exists f :: f in fields && f.key == g.key && Same(f.value, g.value)
  }

  lemma {:induction false} SameCovers(s: seq<Field>, s': seq<Field>)
    ensures (forall i :: 0 <= i < |s| ==> MatchedIn(s[i], s')) <==> Covers(s, s')
    ensures (forall j :: 0 <= j < |s'| ==> MatchedBy(s, s'[j])) <==> CoveredBy(s, s')
  {
    hide Same;
    forall i | 0 <= i < |s| ensures MatchedIn(s[i], s') <==> exists g :: g in s' && g.key == s[i].key && Same(s[i].value, g.value) {
    }
    forall j | 0 <= j < |s'| ensures MatchedBy(s, s'[j]) <==> exists f :: f in s && f.key == s'[j].key && Same(f.value, s'[j].value) {
    }
    hide MatchedIn, MatchedBy;
    if Covers(s, s') {
      forall i | 0 <= i < |s| ensures MatchedIn(s[i], s') {
        assert s[i] in s;
      }
    } else {
      var f :| f in s && forall g :: g in s' && g.key == f.key ==> !Same(f.value, g.value);
      var i :| 0 <= i < |s| && s[i] == f;
      assert !MatchedIn(s[i], s');
    }
    if CoveredBy(s, s') {
      forall j | 0 <= j < |s'| ensures MatchedBy(s, s'[j]) {
        assert s'[j] in s';
      }
    } else {
      var g :| g in s' && forall f :: f in s && f.key == g.key ==> !Same(f.value, g.value);
      var j :| 0 <= j < |s'| && s'[j] == g;
      assert !MatchedBy(s, s'[j]);
    }
  }

  lemma {:induction false} StableCovers(fields: seq<Field>, fields': seq<Field>)
    ensures Covers(StableFields(fields), StableFields(fields')) && CoveredBy(StableFields(fields), StableFields(fields')) <==>
            forall key :: !Volatile(key) ==> AgreeOn(fields, fields', key)
  {
    hide Volatile, StableFields, Same;
    var s, s' := StableFields(fields), StableFields(fields');
    if forall key :: !Volatile(key) ==> AgreeOn(fields, fields', key) {
      forall f | f in s ensures exists g :: g in s' && g.key == f.key && Same(f.value, g.value) {
        assert AgreeOn(fields, fields', f.key);
      }
      forall g | g in s' ensures exists f :: f in s && f.key == g.key && Same(f.value, g.value) {
        assert AgreeOn(fields, fields', g.key);
      }
    }
  }

  lemma {:induction false} StableSame(fields: seq<Field>, fields': seq<Field>)
    ensures Same(Obj(StableFields(fields)), Obj(StableFields(fields'))) <==>
            forall key :: !Volatile(key) ==> AgreeOn(fields, fields', key)
  {
    StableCovers(fields, fields');
    SameCovers(StableFields(fields), StableFields(fields'));
    hide Volatile, StableFields, AgreeOn, Covers, CoveredBy, MatchedIn, MatchedBy;
  }

  /** Two updates get the same text to hash exactly when they were received by the same profile and agree,
      up to key order, under every key but those of the two fields that tell of the receipt. */
  lemma {:induction false} FallbackIdentity(p: Text, a: Text, v: Json, p': Text, a': Text, v': Json)
    requires WellFormed(v) && WellFormed(v') && FallbackText(p, a, v).Some? && FallbackText(p', a', v').Some?
    ensures FallbackText(p, a, v) == FallbackText(p', a', v') <==>
            && p == p' && a == a'
            && forall key :: key != Units("receivedAt") && key != Units("rawChange") ==> AgreeOn(v.fields, v'.fields, key)
  {
    FallbackDecides(p, a, v, p', a', v');
    StableSame(v.fields, v'.fields);
    hide FallbackText, Same, StableFields, AgreeOn;
  }

  lemma {:induction false} FallbackDecides(p: Text, a: Text, v: Json, p': Text, a': Text, v': Json)
    requires WellFormed(v) && WellFormed(v') && FallbackText(p, a, v).Some? && FallbackText(p', a', v').Some?
    ensures FallbackText(p, a, v) == FallbackText(p', a', v') <==>
            p == p' && a == a' && Same(Obj(StableFields(v.fields)), Obj(StableFields(v'.fields)))
  {
    hide Render, FallbackTuple, WellFormed, Same, Height, Normalize, StableFields;
    var s, s' := Obj(StableFields(v.fields)), Obj(StableFields(v'.fields));
    StableRecordIsWellFormed(v.fields);
    StableRecordIsWellFormed(v'.fields);
    CanonicalIdentity(s, s');
    FallbackTupleDecides(p, a, Canonical(s, 0).value, p', a', Canonical(s', 0).value);
  }

  // ----- the three families of keys -----

  function MessageTuple(phone: Text, account: Text, messageId: Text): Json {
    Arr(Texts([Units("msg"), phone, account, messageId]))
  }

  function StatusTuple(phone: Text, account: Text, statusId: Text, status: Text, timestamp: Text): Json {
    Arr(Texts([Units("status"), phone, account, statusId, status, timestamp]))
  }

  /** The text hashed for a message, a status or any other update tells which of them it is of, and
      determines everything it was made of. */
  lemma FamiliesNeverCollide(a: seq<Text>, b: seq<Text>)
    requires |a| == 5 && |b| == 5
    ensures Render(MessageTuple(a[0], a[1], a[2])) == Render(MessageTuple(b[0], b[1], b[2])) <==> a[..3] == b[..3]
    ensures Render(StatusTuple(a[0], a[1], a[2], a[3], a[4])) == Render(StatusTuple(b[0], b[1], b[2], b[3], b[4])) <==> a == b
    ensures Render(MessageTuple(a[0], a[1], a[2])) != Render(StatusTuple(b[0], b[1], b[2], b[3], b[4]))
    ensures Render(MessageTuple(a[0], a[1], a[2])) != Render(FallbackTuple(b[0], b[1], b[2]))
    ensures Render(StatusTuple(a[0], a[1], a[2], a[3], a[4])) != Render(FallbackTuple(b[0], b[1], b[2]))
  {
    hide Render, Texts, Units;
    var m, s, o := Units("msg"), Units("status"), OTHER;
    NamespacesNeverCollide([m, a[0], a[1], a[2]], [m, b[0], b[1], b[2]]);
    NamespacesNeverCollide([s, a[0], a[1], a[2], a[3], a[4]], [s, b[0], b[1], b[2], b[3], b[4]]);
    NamespacesNeverCollide([m, a[0], a[1], a[2]], [s, b[0], b[1], b[2], b[3], b[4]]);
    NamespacesNeverCollide([m, a[0], a[1], a[2]], [o, b[0], b[1], b[2]]);
    NamespacesNeverCollide([s, a[0], a[1], a[2], a[3], a[4]], [o, b[0], b[1], b[2]]);
    assert |m| == 3 && |o| == 5;
    assert [m, a[0], a[1], a[2]][0] == m && [o, b[0], b[1], b[2]][0] == o;
    SamePartsSameList(a, b, m, s);
  }

  lemma SamePartsSameList(a: seq<Text>, b: seq<Text>, m: Text, s: Text)
    requires |a| == 5 && |b| == 5
    ensures [m, a[0], a[1], a[2]] == [m, b[0], b[1], b[2]] <==> a[..3] == b[..3]
    ensures [s, a[0], a[1], a[2], a[3], a[4]] == [s, b[0], b[1], b[2], b[3], b[4]] <==> a == b
  {
    assert a[..3] == [a[0], a[1], a[2]] && b[..3] == [b[0], b[1], b[2]];
    assert a == [a[0], a[1], a[2], a[3], a[4]] && b == [b[0], b[1], b[2], b[3], b[4]];
    if [m, a[0], a[1], a[2]] == [m, b[0], b[1], b[2]] {
      assert [m, a[0], a[1], a[2]][1..] == a[..3] && [m, b[0], b[1], b[2]][1..] == b[..3];
    }
    if [s, a[0], a[1], a[2], a[3], a[4]] == [s, b[0], b[1], b[2], b[3], b[4]] {
      assert [s, a[0], a[1], a[2], a[3], a[4]][1..] == a && [s, b[0], b[1], b[2], b[3], b[4]][1..] == b;
    }
  }
}
