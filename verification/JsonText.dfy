/** JSON values as parsed, and their rendering, which determines them: strings as section 7 of RFC 8259
    has them. */
module JsonText {
  import opened Wrappers

  /** Text as the program holds it: 16-bit code units, paired or unpaired surrogates included. */
  type Unit = n: int | 0 <= n < 0x1_0000

  type Text = seq<Unit>

  /** A number is carried by the text it renders to. */
  datatype Json = Null | Bool(b: bool) | Num(literal: Text) | Str(text: Text) | Arr(items: seq<Json>) | Obj(fields: seq<Field>)

  datatype Field = Field(key: Text, value: Json)

  const QUOTE: Unit := 34
  const BACKSLASH: Unit := 92
  const COMMA: Unit := 44
  const COLON: Unit := 58
  const OPEN_BRACKET: Unit := 91
  const CLOSE_BRACKET: Unit := 93
  const OPEN_BRACE: Unit := 123
  const CLOSE_BRACE: Unit := 125
  const LETTER_U: Unit := 117

  /** A string of the program's source as the text it is. */
  function Units(s: string): (r: Text)
    requires forall i :: 0 <= i < |s| ==> s[i] as int < 0x1_0000
    ensures |r| == |s| && forall i :: 0 <= i < |s| ==> r[i] == s[i] as int
  {
    seq(|s|, i requires 0 <= i < |s| => s[i] as int)
  }

  // ----- strings -----

  predicate High(u: Unit) {
    0xD800 <= u < 0xDC00
  }

  predicate Low(u: Unit) {
    0xDC00 <= u < 0xE000
  }

  function HexDigit(d: int): Unit
    requires 0 <= d < 16
  {
    if d < 10 then 48 + d else 87 + d
  }

  function Hex4(u: Unit): (h: Text)
    ensures |h| == 4
  {
    [HexDigit(u / 4096), HexDigit(u / 256 % 16), HexDigit(u / 16 % 16), HexDigit(u % 16)]
  }

  /** The letter of a two-unit escape, if the unit has one. */
  function ShortEscape(u: Unit): Option<Unit> {
    if u == QUOTE then Some(QUOTE)
    else if u == BACKSLASH then Some(BACKSLASH)
    else if u == 8 then Some(98)
    else if u == 12 then Some(102)
    else if u == 10 then Some(110)
    else if u == 13 then Some(114)
    else if u == 9 then Some(116)
    else None
  }

  /** A unit on its own: a short escape, a hexadecimal escape for controls and unpaired surrogates, or
      itself. */
  function EscapeUnit(u: Unit): Text {
    if ShortEscape(u).Some? then [BACKSLASH, ShortEscape(u).value]
    else if u < 32 || High(u) || Low(u) then [BACKSLASH, LETTER_U] + Hex4(u)
    else [u]
  }

  predicate StartsWithPair(s: Text) {
    |s| >= 2 && High(s[0]) && Low(s[1])
  }

  function Escape(s: Text): Text {
    if s == [] then []
    else if StartsWithPair(s) then s[..2] + Escape(s[2..])
    else EscapeUnit(s[0]) + Escape(s[1..])
  }

  function Quote(s: Text): Text {
    [QUOTE] + Escape(s) + [QUOTE]
  }

  lemma Hex4Injective(a: Unit, b: Unit)
    requires Hex4(a) == Hex4(b)
    ensures a == b
  {
    assert Hex4(a)[0] == Hex4(b)[0] && Hex4(a)[1] == Hex4(b)[1] && Hex4(a)[2] == Hex4(b)[2] && Hex4(a)[3] == Hex4(b)[3];
    HexDigits(a);
    HexDigits(b);
  }

  lemma HexDigits(u: Unit)
    ensures u == u / 4096 * 4096 + u / 256 % 16 * 256 + u / 16 % 16 * 16 + u % 16
  {
    assert u / 16 == u / 16 / 16 * 16 + u / 16 % 16;
    assert u / 256 == u / 256 / 16 * 16 + u / 256 % 16;
    assert u / 16 / 16 == u / 256;
    assert u / 256 / 16 == u / 4096;
  }

  /** The first code word of an escaped text: what it stands for, and its rendering. */
  function Token(s: Text): Text
    requires s != []
  {
    if StartsWithPair(s) then s[..2] else s[..1]
  }

  function Code(token: Text): Text
    requires token != []
  {
    if |token| == 1 then EscapeUnit(token[0]) else token
  }

  predicate IsToken(t: Text) {
    |t| == 1 || (|t| == 2 && StartsWithPair(t))
  }

  /** Code words are told apart by their beginnings, and none begins with a quote. */
  lemma CodesArePrefixFree(a: Text, b: Text, x: Text, y: Text)
    requires IsToken(a) && IsToken(b) && Code(a) + x == Code(b) + y
    ensures a == b && x == y
  {
    var s := Code(a) + x;
    assert s == Code(b) + y;
    CodeShape(a, x);
    CodeShape(b, y);
    if s[0] == BACKSLASH && s[1] == LETTER_U {
      Hex4Injective(a[0], b[0]);
    }
    assert a == b;
    assert s[|Code(a)|..] == x && s[|Code(b)|..] == y;
  }

  /** Which code word a text begins with can be read off its first units. */
  lemma CodeShape(t: Text, x: Text)
    requires IsToken(t)
    ensures var s := Code(t) + x;
            && s[0] != QUOTE
            && (s[0] != BACKSLASH && !High(s[0]) ==> t == s[..1])
            && (s[0] != BACKSLASH && High(s[0]) ==> |s| >= 2 && t == s[..2])
            && (s[0] == BACKSLASH ==> |s| >= 2 && |t| == 1)
            && (s[0] == BACKSLASH && s[1] != LETTER_U ==> ShortEscape(t[0]) == Some(s[1]))
            && (s[0] == BACKSLASH && s[1] == LETTER_U ==> |s| >= 6 && Hex4(t[0]) == s[2..6] && ShortEscape(t[0]).None?)
  {
  }

  function Closed(s: Text, x: Text): Text {
    Escape(s) + [QUOTE] + x
  }

  /** An escaped text with its closing quote begins with its first code word, or with the quote. */
  lemma ClosedUnfolds(s: Text, x: Text)
    ensures s == [] ==> Closed(s, x) == [QUOTE] + x
    ensures s != [] ==> IsToken(Token(s)) && s == Token(s) + s[|Token(s)|..]
    ensures s != [] ==> Closed(s, x) == Code(Token(s)) + Closed(s[|Token(s)|..], x)
    ensures (Closed(s, x)[0] == QUOTE) <==> s == []
  {
  }

  /** A quoted text is recognised wherever it stands: whatever follows, the text and the rest are
      determined. */
  lemma {:induction false} EscapeUnambiguous(s: Text, t: Text, x: Text, y: Text)
    requires Closed(s, x) == Closed(t, y)
    ensures s == t && x == y
    decreases |s|
  {
    ClosedUnfolds(s, x);
    ClosedUnfolds(t, y);
    hide Closed, Code, Token;
    if s == [] {
      assert ([QUOTE] + x)[1..] == x && ([QUOTE] + y)[1..] == y;
    } else {
      var s', t' := s[|Token(s)|..], t[|Token(t)|..];
      CodesArePrefixFree(Token(s), Token(t), Closed(s', x), Closed(t', y));
      EscapeUnambiguous(s', t', x, y);
    }
  }

  // ----- rendering -----

  function ItemsTail(items: seq<Json>): Text
    decreases items, 0
  {
    if items == [] then [] else [COMMA] + Render(items[0]) + ItemsTail(items[1..])
  }

  function FieldsTail(fields: seq<Field>): Text
    decreases fields, 0
  {
    if fields == [] then []
    else [COMMA] + Quote(fields[0].key) + [COLON] + Render(fields[0].value) + FieldsTail(fields[1..])
  }

  function Render(v: Json): Text
    decreases v, 1
  {
    match v
    case Null => [110, 117, 108, 108]
    case Bool(b) => if b then [116, 114, 117, 101] else [102, 97, 108, 115, 101]
    case Num(literal) => literal
    case Str(text) => Quote(text)
    case Arr(items) =>
      [OPEN_BRACKET] + (if items == [] then [] else Render(items[0]) + ItemsTail(items[1..])) + [CLOSE_BRACKET]
    case Obj(fields) =>
      [OPEN_BRACE] +
      (if fields == [] then []
       else Quote(fields[0].key) + [COLON] + Render(fields[0].value) + FieldsTail(fields[1..])) + [CLOSE_BRACE]
  }

  // ----- well-formed values -----

  /** The units a rendered number consists of: digits, sign, point, exponent. */
  predicate NumberUnit(u: int) {
    48 <= u < 58 || u == 45 || u == 43 || u == 46 || u == 101
  }

  predicate Numeric(a: Text) {
    forall u :: u in a ==> NumberUnit(u)
  }

  predicate NumberText(t: Text) {
    t != [] && (48 <= t[0] < 58 || t[0] == 45) && Numeric(t)
  }

  predicate DistinctKeys(fields: seq<Field>) {
    forall i, j :: 0 <= i < j < |fields| ==> fields[i].key != fields[j].key
  }

  predicate WellFormed(v: Json) {
    match v
    case Num(literal) => NumberText(literal)
    case Arr(items) => forall i :: 0 <= i < |items| ==> WellFormed(items[i])
    case Obj(fields) => DistinctKeys(fields) && forall i :: 0 <= i < |fields| ==> WellFormed(fields[i].value)
    case _ => true
  }

  // ----- the rendering determines the value -----

  /** Text that cannot continue a number. */
  predicate Delimited(x: Text) {
    x == [] || !NumberUnit(x[0])
  }

  /** Whether a number goes on can be read off the next unit. */
  lemma NumberGoesOn(a: Text, x: Text)
    requires Numeric(a) && Delimited(x)
    ensures a != [] <==> a + x != [] && NumberUnit((a + x)[0])
    ensures a != [] ==> Numeric(a[1..]) && a == [a[0]] + a[1..] && a + x == [a[0]] + (a[1..] + x)
  {
  }

  lemma {:induction false} NumbersEndAtDelimiters(a: Text, b: Text, x: Text, y: Text)
    requires a + x == b + y && Delimited(x) && Delimited(y) && Numeric(a) && Numeric(b)
    ensures a == b && x == y
    decreases |a|
  {
    NumberGoesOn(a, x);
    NumberGoesOn(b, y);
    if a != [] {
      assert a[0] == ([a[0]] + (a[1..] + x))[0] == ([b[0]] + (b[1..] + y))[0] == b[0];
      DropFirst(a[0], a[1..] + x, b[1..] + y);
      NumbersEndAtDelimiters(a[1..], b[1..], x, y);
    } else {
      assert a + x == x && b + y == y;
    }
  }

  /** The first unit of a rendering tells the kind of value. */
  function Lead(v: Json): int {
    match v
    case Null => 110
    case Bool(b) => if b then 116 else 102
    case Num(literal) => if literal != [] then literal[0] else -1
    case Str(_) => QUOTE
    case Arr(_) => OPEN_BRACKET
    case Obj(_) => OPEN_BRACE
  }

  lemma {:induction false} RenderLeads(v: Json, x: Text)
    requires WellFormed(v)
    ensures Render(v) != [] && Render(v)[0] == Lead(v) && (Render(v) + x)[0] == Lead(v)
    ensures Lead(v) != CLOSE_BRACKET
  {
  }

  lemma {:induction false} LeadTellsTheKind(v: Json, w: Json)
    requires WellFormed(v) && WellFormed(w) && Lead(v) == Lead(w)
    ensures v.Num? <==> w.Num?
    ensures v.Str? <==> w.Str?
    ensures v.Arr? <==> w.Arr?
    ensures v.Obj? <==> w.Obj?
    ensures v.Null? || v.Bool? ==> v == w
  {
  }

  lemma DropFirst(u: Unit, x: Text, y: Text)
    requires [u] + x == [u] + y
    ensures x == y
  {
    assert ([u] + x)[1..] == x && ([u] + y)[1..] == y;
  }

  lemma QuotesUnambiguous(s: Text, t: Text, x: Text, y: Text)
    requires Quote(s) + x == Quote(t) + y
    ensures s == t && x == y
  {
    assert Quote(s) + x == [QUOTE] + Closed(s, x) && Quote(t) + y == [QUOTE] + Closed(t, y);
    DropFirst(QUOTE, Closed(s, x), Closed(t, y));
    EscapeUnambiguous(s, t, x, y);
  }

  /** What is left of an array or object after one of its elements, up to and beyond its end. */
  function ItemsEnd(items: seq<Json>, x: Text): (r: Text)
    ensures Delimited(r)
  {
    if items == [] then [CLOSE_BRACKET] + x else [COMMA] + (Render(items[0]) + ItemsEnd(items[1..], x))
  }

  function FieldsEnd(fields: seq<Field>, x: Text): (r: Text)
    ensures Delimited(r)
  {
    if fields == [] then [CLOSE_BRACE] + x
    else [COMMA] + Entry(fields[0], FieldsEnd(fields[1..], x))
  }

  /** One field and what follows it. */
  function Entry(f: Field, x: Text): Text {
    Quote(f.key) + ([COLON] + (Render(f.value) + x))
  }

  lemma EntryLeads(f: Field, x: Text)
    ensures Entry(f, x) != [] && Entry(f, x)[0] == QUOTE
  {
  }

  lemma {:induction false} ItemsEndIsTail(items: seq<Json>, x: Text)
    ensures ItemsEnd(items, x) == ItemsTail(items) + [CLOSE_BRACKET] + x
  {
    hide Render;
    if items != [] {
      ItemsEndIsTail(items[1..], x);
      var first, rest := Render(items[0]), ItemsTail(items[1..]);
      assert [COMMA] + (first + (rest + [CLOSE_BRACKET] + x)) == [COMMA] + first + rest + [CLOSE_BRACKET] + x;
    }
  }

  lemma {:induction false} FieldsEndIsTail(fields: seq<Field>, x: Text)
    ensures FieldsEnd(fields, x) == FieldsTail(fields) + [CLOSE_BRACE] + x
  {
    hide Quote, Render;
    if fields != [] {
      FieldsEndIsTail(fields[1..], x);
      var key, value, rest := Quote(fields[0].key), Render(fields[0].value), FieldsTail(fields[1..]);
      assert [COMMA] + (key + ([COLON] + (value + (rest + [CLOSE_BRACE] + x))))
          == [COMMA] + key + [COLON] + value + rest + [CLOSE_BRACE] + x;
    }
  }

  lemma {:induction false} RenderArray(items: seq<Json>, x: Text)
    ensures Render(Arr(items)) + x ==
            [OPEN_BRACKET] + (if items == [] then [CLOSE_BRACKET] + x else Render(items[0]) + ItemsEnd(items[1..], x))
  {
    if items != [] {
      ItemsEndIsTail(items[1..], x);
    }
  }

  lemma {:induction false} RenderObject(fields: seq<Field>, x: Text)
    ensures Render(Obj(fields)) + x ==
            [OPEN_BRACE] + (if fields == [] then [CLOSE_BRACE] + x
                            else Entry(fields[0], FieldsEnd(fields[1..], x)))
  {
    hide Quote, FieldsEnd, FieldsTail;
    if fields != [] {
      FieldsEndIsTail(fields[1..], x);
      var key, value, rest := Quote(fields[0].key), Render(fields[0].value), FieldsTail(fields[1..]);
      assert [OPEN_BRACE] + (key + ([COLON] + (value + (rest + [CLOSE_BRACE] + x))))
          == [OPEN_BRACE] + (key + [COLON] + value + rest) + [CLOSE_BRACE] + x;
    }
  }

  /** Unambiguous prefix: whatever delimited text follows, a rendering determines its value and where
      it ends. */
  lemma {:induction false} RenderUnambiguous(v: Json, w: Json, x: Text, y: Text)
    requires WellFormed(v) && WellFormed(w) && Delimited(x) && Delimited(y)
    requires Render(v) + x == Render(w) + y
    ensures v == w && x == y
    decreases v, 1
  {
    RenderLeads(v, x);
    RenderLeads(w, y);
    LeadTellsTheKind(v, w);
    match v
    case Num(literal) => NumbersEndAtDelimiters(literal, w.literal, x, y);
    case Str(text) => QuotesUnambiguous(text, w.text, x, y);
    case Arr(items) => ArraysUnambiguous(items, w.items, x, y);
    case Obj(fields) => ObjectsUnambiguous(fields, w.fields, x, y);
    case _ => assert (Render(v) + x)[|Render(v)|..] == x && (Render(w) + y)[|Render(w)|..] == y;
  }

  lemma ArrayChildren(items: seq<Json>)
    requires WellFormed(Arr(items))
    ensures forall i :: 0 <= i < |items| ==> WellFormed(items[i])
  {
  }

  lemma ObjectChildren(fields: seq<Field>)
    requires WellFormed(Obj(fields))
    ensures forall i :: 0 <= i < |fields| ==> WellFormed(fields[i].value)
  {
  }

  lemma {:induction false} ArraysUnambiguous(a: seq<Json>, b: seq<Json>, x: Text, y: Text)
    requires WellFormed(Arr(a)) && WellFormed(Arr(b)) && Delimited(x) && Delimited(y)
    requires Render(Arr(a)) + x == Render(Arr(b)) + y
    ensures a == b && x == y
    decreases a, 3
  {
    RenderArray(a, x);
    RenderArray(b, y);
    hide Render, ItemsEnd, WellFormed;
    ArrayChildren(a);
    ArrayChildren(b);
    var after1 := if a == [] then [CLOSE_BRACKET] + x else Render(a[0]) + ItemsEnd(a[1..], x);
    var after2 := if b == [] then [CLOSE_BRACKET] + y else Render(b[0]) + ItemsEnd(b[1..], y);
    DropFirst(OPEN_BRACKET, after1, after2);
    if a != [] {
      RenderLeads(a[0], ItemsEnd(a[1..], x));
    }
    if b != [] {
      RenderLeads(b[0], ItemsEnd(b[1..], y));
    }
    if a == [] {
      DropFirst(CLOSE_BRACKET, x, y);
    } else {
      RenderUnambiguous(a[0], b[0], ItemsEnd(a[1..], x), ItemsEnd(b[1..], y));
      ItemsUnambiguous(a[1..], b[1..], x, y);
      assert a == [a[0]] + a[1..] && b == [b[0]] + b[1..];
    }
  }

  lemma {:induction false} ItemsUnambiguous(a: seq<Json>, b: seq<Json>, x: Text, y: Text)
    requires (forall i :: 0 <= i < |a| ==> WellFormed(a[i])) && (forall i :: 0 <= i < |b| ==> WellFormed(b[i]))
    requires Delimited(x) && Delimited(y) && ItemsEnd(a, x) == ItemsEnd(b, y)
    ensures a == b && x == y
    decreases a, 2
  {
    assert ItemsEnd(a, x)[0] == if a == [] then CLOSE_BRACKET else COMMA;
    assert ItemsEnd(b, y)[0] == if b == [] then CLOSE_BRACKET else COMMA;
    if a == [] {
      DropFirst(CLOSE_BRACKET, x, y);
    } else {
      DropFirst(COMMA, Render(a[0]) + ItemsEnd(a[1..], x), Render(b[0]) + ItemsEnd(b[1..], y));
      RenderUnambiguous(a[0], b[0], ItemsEnd(a[1..], x), ItemsEnd(b[1..], y));
      ItemsUnambiguous(a[1..], b[1..], x, y);
      assert a == [a[0]] + a[1..] && b == [b[0]] + b[1..];
    }
  }

  /** One field: key, colon, value, and then the rest. */
  lemma {:induction false} FieldUnambiguous(f: Field, g: Field, x: Text, y: Text)
    requires WellFormed(f.value) && WellFormed(g.value) && Delimited(x) && Delimited(y)
    requires Entry(f, x) == Entry(g, y)
    ensures f == g && x == y
    decreases f, 0
  {
    hide Quote, Render, WellFormed;
    QuotesUnambiguous(f.key, g.key, [COLON] + (Render(f.value) + x), [COLON] + (Render(g.value) + y));
    DropFirst(COLON, Render(f.value) + x, Render(g.value) + y);
    RenderUnambiguous(f.value, g.value, x, y);
  }

  lemma {:induction false} ObjectsUnambiguous(a: seq<Field>, b: seq<Field>, x: Text, y: Text)
    requires WellFormed(Obj(a)) && WellFormed(Obj(b)) && Delimited(x) && Delimited(y)
    requires Render(Obj(a)) + x == Render(Obj(b)) + y
    ensures a == b && x == y
    decreases a, 3
  {
    RenderObject(a, x);
    RenderObject(b, y);
    hide Render, FieldsEnd, WellFormed;
    ObjectChildren(a);
    ObjectChildren(b);
    var after1 := if a == [] then [CLOSE_BRACE] + x else Entry(a[0], FieldsEnd(a[1..], x));
    var after2 := if b == [] then [CLOSE_BRACE] + y else Entry(b[0], FieldsEnd(b[1..], y));
    hide Entry;
    DropFirst(OPEN_BRACE, after1, after2);
    if a != [] {
      EntryLeads(a[0], FieldsEnd(a[1..], x));
    }
    if b != [] {
      EntryLeads(b[0], FieldsEnd(b[1..], y));
    }
    if a == [] {
      DropFirst(CLOSE_BRACE, x, y);
    } else {
      FieldUnambiguous(a[0], b[0], FieldsEnd(a[1..], x), FieldsEnd(b[1..], y));
      FieldsUnambiguous(a[1..], b[1..], x, y);
      assert a == [a[0]] + a[1..] && b == [b[0]] + b[1..];
    }
  }

  lemma {:induction false} FieldsUnambiguous(a: seq<Field>, b: seq<Field>, x: Text, y: Text)
    requires (forall i :: 0 <= i < |a| ==> WellFormed(a[i].value)) && (forall i :: 0 <= i < |b| ==> WellFormed(b[i].value))
    requires Delimited(x) && Delimited(y) && FieldsEnd(a, x) == FieldsEnd(b, y)
    ensures a == b && x == y
    decreases a, 2
  {
    assert FieldsEnd(a, x)[0] == if a == [] then CLOSE_BRACE else COMMA;
    assert FieldsEnd(b, y)[0] == if b == [] then CLOSE_BRACE else COMMA;
    if a == [] {
      DropFirst(CLOSE_BRACE, x, y);
    } else {
      hide Entry;
      DropFirst(COMMA, Entry(a[0], FieldsEnd(a[1..], x)), Entry(b[0], FieldsEnd(b[1..], y)));
      FieldUnambiguous(a[0], b[0], FieldsEnd(a[1..], x), FieldsEnd(b[1..], y));
      FieldsUnambiguous(a[1..], b[1..], x, y);
      assert a == [a[0]] + a[1..] && b == [b[0]] + b[1..];
    }
  }

  /** Nothing but the value itself renders to its text. */
  lemma {:induction false} RenderingsDetermine(v: Json, w: Json)
    requires WellFormed(v) && WellFormed(w) && Render(v) == Render(w)
    ensures v == w
  {
    assert Render(v) + [] == Render(w) + [];
    RenderUnambiguous(v, w, [], []);
  }

  // ----- the rendering is the JSON text of the value -----

  /** A hexadecimal digit of either case. */
  function HexValue(u: Unit): (d: Option<int>)
    ensures d.Some? ==> 0 <= d.value < 16
  {
    if Units("0")[0] <= u <= Units("9")[0] then Some(u - Units("0")[0])
    else if Units("a")[0] <= u <= Units("f")[0] then Some(u - Units("a")[0] + 10)
    else if Units("A")[0] <= u <= Units("F")[0] then Some(u - Units("A")[0] + 10)
    else None
  }

  function HexNumber(h: Text): Option<Unit>
    requires |h| == 4
  {
    var a, b, c, d := HexValue(h[0]), HexValue(h[1]), HexValue(h[2]), HexValue(h[3]);
    if a.Some? && b.Some? && c.Some? && d.Some? then Some(((a.value * 16 + b.value) * 16 + c.value) * 16 + d.value) else None
  }

  /** What a letter behind a backslash stands for, by section 7 of RFC 8259. */
  function Escaped(u: Unit): Option<Unit> {
    if u in Units("\"\\/") then Some(u)
    else if u == Units("b")[0] then Some(8)
    else if u == Units("f")[0] then Some(12)
    else if u == Units("n")[0] then Some(10)
    else if u == Units("r")[0] then Some(13)
    else if u == Units("t")[0] then Some(9)
    else None
  }

  /** The text between the quotes of a JSON string, read by that section; nothing if it is none. */
  function Unescape(s: Text): Option<Text>
    decreases |s|
  {
    if s == [] then Some([])
    else if s[0] == Units("\\")[0] then
      if |s| >= 6 && s[1] == Units("u")[0] then
        var rest := Unescape(s[6..]);
        if HexNumber(s[2..6]).None? || rest.None? then None else Some([HexNumber(s[2..6]).value] + rest.value)
      else if |s| >= 2 then
        var rest := Unescape(s[2..]);
        if Escaped(s[1]).None? || rest.None? then None else Some([Escaped(s[1]).value] + rest.value)
      else None
    else if s[0] < 32 || s[0] == Units("\"")[0] then None
    else
      var rest := Unescape(s[1..]);
      if rest.None? then None else Some([s[0]] + rest.value)
  }

  lemma HexReads(u: Unit)
    ensures HexNumber(Hex4(u)) == Some(u)
  {
    HexDigits(u);
    var a, b, c, d := u / 4096, u / 256 % 16, u / 16 % 16, u % 16;
    HexDigitReads(a);
    HexDigitReads(b);
    HexDigitReads(c);
    HexDigitReads(d);
    hide HexDigit, HexValue;
    assert Hex4(u) == [HexDigit(a), HexDigit(b), HexDigit(c), HexDigit(d)];
  }

  lemma HexDigitReads(d: int)
    requires 0 <= d < 16
    ensures HexValue(HexDigit(d)) == Some(d)
  {
  }

  lemma ShortEscapeReads(u: Unit)
    ensures ShortEscape(u).Some? ==> Escaped(ShortEscape(u).value) == Some(u) && ShortEscape(u).value != Units("u")[0]
  {
    assert Units("\"\\/") == [34, 92, 47];
  }

  lemma {:induction false} UnitReads(u: Unit, rest: Text)
    requires Unescape(rest).Some?
    ensures Unescape(EscapeUnit(u) + rest) == Some([u] + Unescape(rest).value)
  {
    HexReads(u);
    ShortEscapeReads(u);
    hide Escaped, Hex4, HexNumber;
    var s := EscapeUnit(u) + rest;
    if ShortEscape(u).Some? {
      assert s[2..] == rest && s[1] == ShortEscape(u).value;
    } else if u < 32 || High(u) || Low(u) {
      assert s[6..] == rest && s[2..6] == Hex4(u);
    } else {
      assert s[1..] == rest;
    }
  }

  lemma {:induction false} PairReads(pair: Text, rest: Text)
    requires |pair| == 2 && StartsWithPair(pair) && Unescape(rest).Some?
    ensures Unescape(pair + rest) == Some(pair + Unescape(rest).value)
  {
    var tail := pair[1..] + rest;
    assert (pair + rest)[1..] == tail && tail[1..] == rest;
    assert Unescape(tail) == Some([pair[1]] + Unescape(rest).value);
    assert [pair[0]] + ([pair[1]] + Unescape(rest).value) == pair + Unescape(rest).value;
  }

  /** Every text is escaped so that the standard reads it back. */
  lemma {:induction false} EscapeReads(s: Text)
    ensures Unescape(Escape(s)) == Some(s)
    decreases |s|
  {
    hide Unescape, EscapeUnit;
    if s == [] {
      EmptyReads();
    } else if StartsWithPair(s) {
      EscapeReads(s[2..]);
      PairReads(s[..2], Escape(s[2..]));
      assert s == s[..2] + s[2..];
    } else {
      EscapeReads(s[1..]);
      UnitReads(s[0], Escape(s[1..]));
      assert s == [s[0]] + s[1..];
    }
  }

  lemma {:induction false} EmptyReads()
    ensures Unescape([]) == Some([])
  {
  }

  /** Texts with commas between them. */
  function Joined(parts: seq<Text>): Text {
    if parts == [] then [] else if |parts| == 1 then parts[0] else parts[0] + Units(",") + Joined(parts[1..])
  }

  predicate IsString(text: Text, s: Text) {
    |text| >= 2 && text == Units("\"") + text[1..|text| - 1] + Units("\"") && Unescape(text[1..|text| - 1]) == Some(s)
  }

  /** The text is a JSON text of the value, by sections 3 to 7 of RFC 8259, without white space and with the
      members of objects in order. */
  ghost predicate Denotes(text: Text, v: Json)
    decreases v
  {
    match v
    case Null => text == Units("null")
    case Bool(b) => text == if b then Units("true") else Units("false")
    case Num(literal) => text == literal
    case Str(s) => IsString(text, s)
    case Arr(items) =>
      exists parts: seq<Text> :: |parts| == |items| && text == Units("[") + Joined(parts) + Units("]") &&
        forall i :: 0 <= i < |items| ==> Denotes(parts[i], items[i])
    case Obj(fields) =>
      exists parts: seq<Text>, keys: seq<Text>, values: seq<Text> ::
        && |parts| == |keys| == |values| == |fields| && text == Units("{") + Joined(parts) + Units("}")
        && forall i :: 0 <= i < |fields| ==>
             parts[i] == keys[i] + Units(":") + values[i] && IsString(keys[i], fields[i].key) && Denotes(values[i], fields[i].value)
  }

  lemma QuoteIsString(s: Text)
    ensures IsString(Quote(s), s)
  {
    EscapeReads(s);
    assert Quote(s)[1..|Quote(s)| - 1] == Escape(s);
    hide Escape, Unescape;
  }

  function RenderedItems(items: seq<Json>): (parts: seq<Text>)
    ensures |parts| == |items| && forall i :: 0 <= i < |items| ==> parts[i] == Render(items[i])
  {
    seq(|items|, i requires 0 <= i < |items| => Render(items[i]))
  }

  function RenderedFields(fields: seq<Field>): (parts: seq<Text>)
    ensures |parts| == |fields|
    ensures forall i :: 0 <= i < |fields| ==> parts[i] == Quote(fields[i].key) + Units(":") + Render(fields[i].value)
  {
    seq(|fields|, i requires 0 <= i < |fields| => Quote(fields[i].key) + Units(":") + Render(fields[i].value))
  }

  lemma {:induction false} ItemsJoin(items: seq<Json>)
    requires items != []
    ensures Joined(RenderedItems(items)) == Render(items[0]) + ItemsTail(items[1..])
    decreases |items|
  {
    hide Render;
    var parts := RenderedItems(items);
    if |items| > 1 {
      ItemsJoin(items[1..]);
      assert parts[1..] == RenderedItems(items[1..]);
      assert Units(",") == [COMMA];
    }
  }

  lemma {:induction false} FieldsJoin(fields: seq<Field>)
    requires fields != []
    ensures Joined(RenderedFields(fields)) == Quote(fields[0].key) + [COLON] + Render(fields[0].value) + FieldsTail(fields[1..])
    decreases |fields|
  {
    hide Render, Quote;
    var parts := RenderedFields(fields);
    assert Units(",") == [COMMA] && Units(":") == [COLON];
    if |fields| > 1 {
      FieldsJoin(fields[1..]);
      assert parts[1..] == RenderedFields(fields[1..]);
    }
  }

  /** Every value is rendered as its JSON text. */
  lemma {:induction false} RenderDenotes(v: Json)
    ensures Denotes(Render(v), v)
    decreases v
  {
    match v
    case Str(s) => QuoteIsString(s);
    case Arr(items) =>
      forall i | 0 <= i < |items| ensures Denotes(Render(items[i]), items[i]) {
        RenderDenotes(items[i]);
      }
      ArrayDenotes(items);
    case Obj(fields) =>
      forall i | 0 <= i < |fields| ensures Denotes(Render(fields[i].value), fields[i].value) {
        RenderDenotes(fields[i].value);
      }
      ObjectDenotes(fields);
    case _ =>
  }

  lemma {:induction false} ArrayDenotes(items: seq<Json>)
    requires forall i :: 0 <= i < |items| ==> Denotes(Render(items[i]), items[i])
    ensures Denotes(Render(Arr(items)), Arr(items))
  {
    var parts := RenderedItems(items);
    if items != [] {
      ItemsJoin(items);
    }
    assert Units("[") == [OPEN_BRACKET] && Units("]") == [CLOSE_BRACKET];
    assert Render(Arr(items)) == Units("[") + Joined(parts) + Units("]");
  }

  lemma {:induction false} ObjectDenotes(fields: seq<Field>)
    requires forall i :: 0 <= i < |fields| ==> Denotes(Render(fields[i].value), fields[i].value)
    ensures Denotes(Render(Obj(fields)), Obj(fields))
  {
    RenderedObject(fields);
    var parts := RenderedFields(fields);
    var keys := seq(|fields|, i requires 0 <= i < |fields| => Quote(fields[i].key));
    var values := seq(|fields|, i requires 0 <= i < |fields| => Render(fields[i].value));
    forall i | 0 <= i < |fields| ensures IsString(keys[i], fields[i].key) {
      QuoteIsString(fields[i].key);
    }
    hide Render, RenderedFields, Quote, IsString, Denotes, Joined;
    MembersDenote(fields, parts, keys, values);
  }

  lemma {:induction false} RenderedObject(fields: seq<Field>)
    ensures Render(Obj(fields)) == Units("{") + Joined(RenderedFields(fields)) + Units("}")
  {
    hide Quote, RenderedFields;
    if fields != [] {
      FieldsJoin(fields);
    }
    assert Units("{") == [OPEN_BRACE] && Units("}") == [CLOSE_BRACE];
  }

  lemma {:induction false} MembersDenote(fields: seq<Field>, parts: seq<Text>, keys: seq<Text>, values: seq<Text>)
    requires |parts| == |keys| == |values| == |fields|
    requires forall i :: 0 <= i < |fields| ==>
      parts[i] == keys[i] + Units(":") + values[i] && IsString(keys[i], fields[i].key) && Denotes(values[i], fields[i].value)
    ensures Denotes(Units("{") + Joined(parts) + Units("}"), Obj(fields))
  {
    hide IsString, Joined, Units;
  }

  /** Of the ways the standard allows, the one section 25.5.2 of ECMA-262 prescribes: the short escape where
      there is one, four lower-case hexadecimal digits for other controls and for unpaired surrogates, and
      everything else, pairs of surrogates included, as it is. */
  lemma {:induction false} EscapesPrescribed(s: Text)
    requires s != []
    ensures var u := s[0];
            if u == 8 || u == 9 || u == 10 || u == 12 || u == 13 || u == 34 || u == 92 then |EscapeUnit(u)| == 2
            else if u < 32 || 0xD800 <= u < 0xE000 then EscapeUnit(u) == Units("\\u") + Hex4(u)
            else EscapeUnit(u) == [u]
    ensures forall h :: h in Hex4(s[0]) ==> h in Units("0123456789abcdef")
    ensures Escape(s) == if |s| >= 2 && 0xD800 <= s[0] < 0xDC00 <= s[1] < 0xE000 then s[..2] + Escape(s[2..])
                         else EscapeUnit(s[0]) + Escape(s[1..])
  {
    LowerCase(s[0]);
    hide Hex4;
    assert Units("\\u") == [BACKSLASH, LETTER_U];
  }

  lemma LowerCase(u: Unit)
    ensures forall h :: h in Hex4(u) ==> h in Units("0123456789abcdef")
  {
    HexDigits(u);
    forall d | 0 <= d < 16 ensures HexDigit(d) in Units("0123456789abcdef") {
      assert Units("0123456789abcdef")[d] == HexDigit(d);
    }
  }
}
