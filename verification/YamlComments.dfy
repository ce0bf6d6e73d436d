/** Comments behind a value: which lines take one without a change of what they say. */
module YamlComments {
  import opened Wrappers
  import opened YamlText
  import opened YamlParser
  import opened YamlRoundTrip
  import opened YamlInsertion

  // ----- trimming -----

  lemma {:induction false} TrimStartAppend(a: string, b: string)
    requires TrimStart(a) != ""
    ensures TrimStart(a + b) == TrimStart(a) + b
    decreases |a|
  {
    hide White;
    assert (a + b)[0] == a[0];
    if White(a[0]) {
      assert (a + b)[1..] == a[1..] + b;
      TrimStartAppend(a[1..], b);
    } else {
      assert TrimStart(a + b) == a + b;
    }
  }

  lemma {:induction false} TrimStartWhite(a: string, b: string)
    requires TrimStart(a) == ""
    ensures TrimStart(a + b) == TrimStart(b)
    decreases |a|
  {
    hide White;
    if a == "" {
      assert a + b == b;
    } else {
      assert (a + b)[0] == a[0] && (a + b)[1..] == a[1..] + b;
      TrimStartWhite(a[1..], b);
    }
  }

  lemma {:induction false} TrimEndAppend(a: string, b: string)
    requires TrimEnd(b) != ""
    ensures TrimEnd(a + b) == a + TrimEnd(b)
    decreases |b|
  {
    var s := a + b;
    assert s[|s| - 1] == b[|b| - 1];
    if White(b[|b| - 1]) {
      assert s[..|s| - 1] == a + b[..|b| - 1];
      TrimEndAppend(a, b[..|b| - 1]);
    }
  }

  lemma {:induction false} TrimEndDrops(s: string)
    ensures forall i :: |TrimEnd(s)| <= i < |s| ==> White(s[i])
    decreases |s|
  {
    if s != "" && White(s[|s| - 1]) {
      TrimEndDrops(s[..|s| - 1]);
    }
  }

  lemma {:induction false} TrimEndWhite(a: string, b: string)
    requires forall i :: 0 <= i < |b| ==> White(b[i])
    ensures TrimEnd(a + b) == TrimEnd(a)
    decreases |b|
  {
    if b == "" {
      assert a + b == a;
    } else {
      assert (a + b)[..|a + b| - 1] == a + b[..|b| - 1];
      TrimEndWhite(a, b[..|b| - 1]);
    }
  }

  /** A comment mark is never trimmed away, nor what stands before it. */
  lemma {:induction false} MarkStays(a: string, c: string) returns (rest: string)
    ensures TrimEnd(a + " #" + c) == a + " #" + rest
    ensures rest <= c && forall i :: |rest| <= i < |c| ==> White(c[i])
  {
    var mark := "#" + c;
    var kept := TrimEnd(mark);
    TrimEndDrops(mark);
    assert !White(mark[0]);
    hide White, TrimEnd;
    assert |kept| > 0;
    rest := kept[1..];
    assert mark[..|kept|] == kept && c == mark[1..];
    TrimEndAppend(a + " ", mark);
    assert a + " #" + c == a + " " + mark && a + " #" + rest == a + " " + kept;
    forall i | |rest| <= i < |c| ensures White(c[i]) {
      assert c[i] == mark[i + 1];
    }
  }

  lemma {:induction false} TrimmedFirst(v: string)
    ensures Trim(v) == TrimEnd(TrimStart(v))
    ensures Trim(v) == "" <==> TrimStart(v) == ""
    ensures Trim(v) != "" ==> Trim(v)[0] == TrimStart(v)[0]
  {
    TrimEndDrops(TrimStart(v));
  }

  /** A text with a comment behind it, trimmed. */
  lemma CommentedTrims(raw: string, c: string) returns (u: string, rest: string)
    requires TrimStart(raw) != ""
    ensures u == TrimStart(raw) && Trim(raw) == TrimEnd(u) && Trim(raw) != "" && u[0] == Trim(raw)[0] && !White(u[0])
    ensures TrimStart(raw + " #" + c) == u + " #" + c && Trim(raw + " #" + c) == u + " #" + rest
    ensures rest <= c && forall i :: |rest| <= i < |c| ==> White(c[i])
  {
    u := TrimStart(raw);
    TrimmedFirst(raw);
    TrimmedFirst(raw + " #" + c);
    hide TrimStart, TrimEnd, Trim, White;
    assert raw + " #" + c == raw + (" #" + c) && u + " #" + c == u + (" #" + c);
    TrimStartAppend(raw, " #" + c);
    rest := MarkStays(u, c);
  }

  /** With nothing but white space before it, a comment is all there is. */
  lemma {:induction false} BareComment(raw: string, c: string)
    requires TrimStart(raw) == "" || Trim(raw) == ""
    ensures TrimStart(raw + " #" + c) == "#" + c
    ensures Trim(raw + " #" + c) != "" && Trim(raw + " #" + c)[0] == '#'
  {
    hide TrimStart, TrimEnd, Trim, White;
    var mark := "#" + c;
    TrimmedFirst(raw);
    TrimmedFirst(raw + " #" + c);
    MarkLeads(mark);
    assert raw + " #" + c == raw + (" " + mark);
    TrimStartWhite(raw, " " + mark);
  }

  lemma {:induction false} MarkLeads(mark: string)
    requires mark != "" && mark[0] == '#'
    ensures TrimStart(" " + mark) == mark
  {
    assert (" " + mark)[1..] == mark;
  }

  // ----- searching -----

  lemma {:induction false} PairKept(s: string, t: string)
    requires IndexOfPair(s, ' ', '#') != -1
    ensures IndexOfPair(s + t, ' ', '#') == IndexOfPair(s, ' ', '#')
    decreases |s|
  {
    assert (s + t)[1..] == s[1..] + t;
    if !(s[0] == ' ' && s[1] == '#') {
      PairKept(s[1..], t);
    }
  }

  lemma {:induction false} PairAtMark(s: string, t: string)
    requires IndexOfPair(s, ' ', '#') == -1
    ensures IndexOfPair(s + " #" + t, ' ', '#') == |s|
    decreases |s|
  {
    if s != "" {
      assert (s + " #" + t)[1..] == s[1..] + " #" + t;
      PairAtMark(s[1..], t);
    }
  }

  lemma {:induction false} FirstKept(s: string, t: string, c: char)
    requires IndexOf(s, c) != -1
    ensures IndexOf(s + t, c) == IndexOf(s, c)
    decreases |s|
  {
    if s[0] != c {
      assert (s + t)[1..] == s[1..] + t;
      FirstKept(s[1..], t, c);
    }
  }

  // ----- values -----

  lemma {:induction false} StripsAt(t: string)
    requires !OpensQuote(t)
    ensures StripComment(t) == var h := IndexOfPair(t, ' ', '#'); if h == -1 then t else TrimEnd(t[..h])
  {
  }

  /** The first comment mark of a text survives the trimming of its end. */
  lemma {:induction false} PairTrimmed(u: string)
    ensures IndexOfPair(TrimEnd(u), ' ', '#') == IndexOfPair(u, ' ', '#')
  {
    assert !White('#');
    hide White, TrimEnd, IndexOfPair;
    var w, h := TrimEnd(u), IndexOfPair(u, ' ', '#');
    TrimEndDrops(u);
    assert u == w + u[|w|..];
    if h != -1 {
      assert !White(u[h + 1]);
      assert w[h] == u[h] && w[h + 1] == u[h + 1];
    }
    if IndexOfPair(w, ' ', '#') != -1 {
      PairKept(w, u[|w|..]);
    }
  }

  /** Cutting the comment off a text that has one is cutting it off the text before the added one. */
  lemma {:induction false} StripsAdded(u: string, rest: string)
    requires u != "" && !White(u[0]) && !OpensQuote(u)
    ensures StripComment(u + " #" + rest) == StripComment(TrimEnd(u))
  {
    var w, t := TrimEnd(u), u + " #" + rest;
    PairTrimmed(u);
    NoQuote(u, " #" + rest);
    hide *;
    assert t == u + (" #" + rest);
    StripsAt(t);
    StripsAt(w);
    var h := IndexOfPair(u, ' ', '#');
    if h == -1 {
      PairAtMark(u, rest);
      assert t[..|u|] == u;
    } else {
      PairKept(u, " #" + rest);
      assert t[..h] == u[..h] == w[..h];
    }
  }

  lemma {:induction false} NoQuote(u: string, t: string)
    requires u != "" && !OpensQuote(u)
    ensures !OpensQuote(u + t) && !OpensQuote(TrimEnd(u))
  {
    hide TrimEnd;
    assert (u + t)[0] == u[0];
  }

  lemma ValueUnfolds(after: string)
    ensures ValueText(after) == StripComment(Trim(after)) && ReadScalar(after) == ParseScalar(ValueText(after))
  {
  }

  /** A comment behind a value, with any space before its mark, changes nothing of what is read. */
  lemma CommentIsCut(v: string, c: string)
    requires Trim(v) != "" && !OpensQuote(Trim(v))
    ensures ValueText(v + " #" + c) == ValueText(v) && ReadScalar(v + " #" + c) == ReadScalar(v)
  {
    var longer := v + " #" + c;
    var u, rest := CommentedTrims(v, c);
    assert !OpensQuote(u);
    hide *;
    StripsAdded(u, rest);
    ValueUnfolds(v);
    ValueUnfolds(longer);
  }

  /** But behind nothing at all it is itself read as the value, and behind a quote it becomes part of it. */
  lemma CommentIsRead(v: string, c: string)
    requires Trim(v) == "" || OpensQuote(Trim(v))
    ensures ValueText(v + " #" + c) != ValueText(v)
  {
    if Trim(v) == "" {
      MarkIsValue(v, c);
    } else {
      var u, rest := CommentedTrims(v, c);
      assert (u + " #" + rest)[0] == u[0] == Trim(v)[0];
      assert |u + " #" + rest| > |Trim(v)|;
      hide Trim, TrimEnd, TrimStart, White, IndexOfPair;
    }
  }

  lemma MarkIsValue(v: string, c: string)
    requires Trim(v) == ""
    ensures ValueText(v + " #" + c) != "" && ValueText(v) == ""
  {
    BareComment(v, c);
    hide Trim, TrimEnd;
    StripKeepsFirst(Trim(v + " #" + c));
  }

  /** What is cut off begins with a space, so a trimmed text keeps its first character. */
  lemma StripKeepsFirst(t: string)
    requires t != "" && !White(t[0])
    ensures StripComment(t) != "" && StripComment(t)[0] == t[0]
  {
    var h := IndexOfPair(t, ' ', '#');
    if h > 0 {
      TrimEndDrops(t[..h]);
    }
  }

  /** The value is empty, or opens a quote, just when the trimmed text does. */
  lemma ValueOpens(after: string)
    ensures ValueText(after) == "" <==> Trim(after) == ""
    ensures OpensQuote(ValueText(after)) <==> OpensQuote(Trim(after))
  {
    TrimmedFirst(after);
    if Trim(after) != "" {
      StripKeepsFirst(Trim(after));
    }
  }

  // ----- lines -----

  /** The line says the same with this comment behind it: it is ignored anyway, or has a value that opens no
      quote, or is in error for another reason. */
  predicate TakesComment(raw: string, c: string) {
    match ReadLine(raw)
    case Blank => true
    case Malformed(error) => error == TabsNotSupported || ('\t' !in c && (':' !in c || Trim(raw)[0] == ':'))
    case Mapping(_, _, value) => '\t' !in c && value != "" && !OpensQuote(value)
  }

  lemma {:induction false} IndentKept(raw: string, t: string)
    requires TrimStart(raw) != ""
    ensures Indent(raw + t) == Indent(raw)
    decreases |raw|
  {
    assert White(' ');
    hide White;
    assert (raw + t)[0] == raw[0];
    if raw[0] == ' ' {
      assert (raw + t)[1..] == raw[1..] + t;
      IndentKept(raw[1..], t);
    }
  }

  lemma BlankTakesComment(raw: string, c: string)
    ensures Ignored(raw + " #" + c) <==> Ignored(raw)
  {
    TrimmedFirst(raw);
    if TrimStart(raw) == "" {
      BareComment(raw, c);
      hide TrimStart, Trim;
    } else {
      var u, rest := CommentedTrims(raw, c);
      hide TrimStart, Trim;
      assert (u + " #" + c)[0] == u[0];
    }
  }

  /** The text after the colon, with the comment and without. */
  lemma {:induction false} AfterColon(u: string, rest: string, k: nat)
    requires k < |TrimEnd(u)|
    ensures (u + " #" + rest)[k + 1..] == u[k + 1..] + " #" + rest
    ensures Trim(TrimEnd(u)[k + 1..]) == Trim(u[k + 1..])
  {
    var t := TrimEnd(u);
    TrimEndDrops(u);
    hide TrimEnd, TrimStart, Trim, White;
    assert u[k + 1..] == t[k + 1..] + u[|t|..];
    TrimWhite(t[k + 1..], u[|t|..]);
  }

  lemma TrimWhite(a: string, b: string)
    requires forall i :: 0 <= i < |b| ==> White(b[i])
    ensures Trim(a + b) == Trim(a)
  {
    hide TrimEnd, TrimStart, White;
    TrimBoth(a);
    TrimBoth(a + b);
    if TrimStart(a) == "" {
      TrimStartWhite(a, b);
      AllWhite(b);
    } else {
      TrimStartAppend(a, b);
      TrimEndWhite(TrimStart(a), b);
    }
  }

  lemma {:induction false} TrimBoth(s: string)
    ensures Trim(s) == TrimEnd(TrimStart(s))
  {
  }

  lemma {:induction false} AllWhite(b: string)
    requires forall i :: 0 <= i < |b| ==> White(b[i])
    ensures TrimStart(b) == ""
    decreases |b|
  {
    if b != "" {
      AllWhite(b[1..]);
    }
  }

  lemma MappingTakesComment(raw: string, c: string)
    requires ReadLine(raw).Mapping? && '\t' !in c
    ensures ReadLine(raw + " #" + c) == ReadLine(raw) <==> ReadLine(raw).value != "" && !OpensQuote(ReadLine(raw).value)
  {
    hide Ignored, TrimStart, TrimEnd, Trim, IndexOf, ValueText, Indent, OpensQuote;
    NotIgnoredBegins(raw);
    var u, rest := CommentedTrims(raw, c);
    var t, t' := Trim(raw), Trim(raw + " #" + c);
    BlankTakesComment(raw, c);
    var k := IndexOf(t, ':');
    assert t' == t + t'[|t|..];
    FirstKept(t, t'[|t|..], ':');
    assert t'[..k] == t[..k];
    assert raw + " #" + c == raw + (" #" + c);
    IndentKept(raw, " #" + c);
    AfterColon(u, rest, k);
    SameTrimSameValue(t[k + 1..], u[k + 1..]);
    ValueOpens(t[k + 1..]);
    if Trim(t[k + 1..]) != "" && !OpensQuote(Trim(t[k + 1..])) {
      CommentIsCut(u[k + 1..], rest);
    } else {
      CommentIsRead(u[k + 1..], rest);
    }
  }

  lemma SameTrimSameValue(a: string, b: string)
    requires Trim(a) == Trim(b)
    ensures ValueText(a) == ValueText(b)
  {
  }

  lemma {:induction false} NotIgnoredBegins(raw: string)
    requires !Ignored(raw)
    ensures TrimStart(raw) != ""
  {
    TrimmedFirst(raw);
  }

  lemma MalformedTakesComment(raw: string, c: string)
    requires ReadLine(raw) == Malformed(InvalidMapping) && '\t' !in c
    ensures Trim(raw) != ""
    ensures ReadLine(raw + " #" + c) == ReadLine(raw) <==> ':' !in c || Trim(raw)[0] == ':'
  {
    hide Ignored, TrimStart, TrimEnd, Trim, ValueText, Indent, IndexOf;
    NotIgnoredBegins(raw);
    BlankTakesComment(raw, c);
    var u, rest := CommentedTrims(raw, c);
    var t, t' := Trim(raw), Trim(raw + " #" + c);
    ColonPlace(t);
    ColonPlace(t');
    assert t[0] == t'[0];
    if ':' !in u {
      ColonInComment(u, rest, c);
    }
    NoColonTrimmed(u);
    TabsJoin(raw, c);
  }

  /** Where the first colon stands tells whether there is one in front, one at all, or none. */
  lemma {:induction false} ColonPlace(t: string)
    requires t != ""
    ensures IndexOf(t, ':') <= 0 <==> t[0] == ':' || ':' !in t
  {
    hide IndexOf;
    var k := IndexOf(t, ':');
    if k > 0 {
      assert t[..k][0] == t[0];
    }
  }

  lemma TabsJoin(raw: string, c: string)
    ensures '\t' in raw + " #" + c <==> '\t' in raw || '\t' in c
  {
    var s := raw + " #" + c;
    assert s[..|raw|] == raw && s[|raw| + 2..] == c;
  }

  lemma {:induction false} NoColonTrimmed(u: string)
    ensures ':' in u <==> ':' in TrimEnd(u)
  {
    TrimEndDrops(u);
    var w := TrimEnd(u);
    if i :| 0 <= i < |u| && u[i] == ':' {
      assert i < |w| && w[i] == ':';
    }
  }

  lemma ColonInComment(u: string, rest: string, c: string)
    requires ':' !in u && rest <= c && forall i :: |rest| <= i < |c| ==> White(c[i])
    ensures ':' in u + " #" + rest <==> ':' in c
  {
    if i :| 0 <= i < |c| && c[i] == ':' {
      assert i < |rest| && rest[i] == ':';
      assert (u + " #" + rest)[|u| + 2 + i] == ':';
    }
  }

  lemma LineKinds(raw: string)
    ensures ReadLine(raw) == Blank <==> Ignored(raw)
    ensures ReadLine(raw) == Malformed(TabsNotSupported) <==> !Ignored(raw) && '\t' in raw
    ensures ReadLine(raw).Malformed? ==> ReadLine(raw).error in {TabsNotSupported, InvalidMapping}
  {
    hide Ignored, Trim, IndexOf, ValueText, Indent;
  }

  /** Which lines take a comment: exactly those of `TakesComment`. A key without a value does not, since the
      comment is then read as its value, nor does a value that opens a quote. */
  lemma CommentKeepsLineExactly(raw: string, c: string)
    ensures ReadLine(raw + " #" + c) == ReadLine(raw) <==> TakesComment(raw, c)
  {
    hide ReadLine, Ignored, OpensQuote, Trim;
    var longer := raw + " #" + c;
    BlankTakesComment(raw, c);
    TabsJoin(raw, c);
    LineKinds(raw);
    LineKinds(longer);
    if ReadLine(raw).Mapping? && '\t' !in c {
      MappingTakesComment(raw, c);
    } else if ReadLine(raw) == Malformed(InvalidMapping) && '\t' !in c {
      MalformedTakesComment(raw, c);
    }
  }

  /** Of the lines a document is printed as: a pair takes every comment unless its value opens a quote, a
      header takes none. */
  lemma PrintedLinesTakeComments(indent: nat, key: string, raw: string, c: string)
    requires PlainKey(key) && '\t' !in c
    ensures GoodLeaf(raw) ==> (TakesComment(PairLine(indent, key, raw), c) <==> !OpensQuote(raw))
    ensures !TakesComment(HeaderLine(indent, key), c)
  {
    hide ReadLine, PairLine, HeaderLine, PlainKey, Trim, StripComment;
    HeaderLineReads(indent, key);
    if GoodLeaf(raw) {
      PairLineReads(indent, key, raw);
      TrimIsTrimmed(raw);
      ValueOpens(raw);
    }
  }

  // ----- files -----

  lemma {:induction false} ParseOfContent(source: string)
    ensures Parse(source) == ParseLines(Content(source))
  {
    hide Run, Close, Telling;
    RunTelling([ROOT], Split(UnixText(source)));
  }

  lemma {:induction false} SameReadingSameRun(a: seq<string>, x: string, y: string, b: seq<string>)
    requires ReadLine(x) == ReadLine(y)
    ensures ParseLines(a + [x] + b) == ParseLines(a + [y] + b)
  {
    hide *;
    var so := Run([ROOT], a);
    RunJoins([ROOT], a, [x] + b);
    RunJoins([ROOT], a, [y] + b);
    assert a + [x] + b == a + ([x] + b) && a + [y] + b == a + ([y] + b);
    if so.Ok? {
      SameReadingSameStep(so.value, x, y, b);
    }
    SameRunSameParse(a + [x] + b, a + [y] + b);
  }

  lemma {:induction false} SameReadingSameStep(stack: Stack, x: string, y: string, b: seq<string>)
    requires ReadLine(x) == ReadLine(y)
    ensures Run(stack, [x] + b) == Run(stack, [y] + b)
  {
    hide ReadLine, PopTo, Place;
    assert ([x] + b)[1..] == b && ([y] + b)[1..] == b;
  }

  lemma {:induction false} SameRunSameParse(a: seq<string>, b: seq<string>)
    requires Run([ROOT], a) == Run([ROOT], b)
    ensures ParseLines(a) == ParseLines(b)
  {
    hide Run, Close;
  }

  lemma LineContent(raw: string)
    requires '\n' !in raw && '\r' !in raw
    ensures Content(raw) == if Ignored(raw) then [] else [raw]
  {
    hide Ignored;
    UnixTextKeeps(raw);
    SplitOneLine(raw);
    assert [raw][1..] == [];
    assert Telling([raw]) == (if Ignored(raw) then [] else [raw]) + Telling([]);
  }

  /** The line ends here: with the file, or with a line break. */
  predicate AtLineEnd(after: string) {
    after == "" || after[0] == '\n' || after[0] == '\r'
  }

  lemma ContentAtLine(before: string, raw: string, after: string) returns (b: seq<string>)
    requires AtLineStart(before) && '\n' !in raw && '\r' !in raw && AtLineEnd(after)
    ensures Content(before + raw + after) == Content(before) + Content(raw) + b
    ensures b == if after == "" then [] else Content(after[1..])
  {
    hide Content;
    assert before + raw + after == before + (raw + after);
    JoinsAtLineStart(before, raw + after);
    if after == "" {
      assert raw + after == raw;
      b := [];
    } else {
      var eol := after[..1];
      assert raw + after == raw + eol + after[1..];
      BreakAddsNothing(raw, eol);
      JoinsAtLineStart(raw + eol, after[1..]);
      b := Content(after[1..]);
    }
  }

  /** A comment behind any line that takes it, anywhere in any file, changes nothing that is parsed. */
  lemma TrailingCommentChangesNothing(before: string, raw: string, after: string, c: string)
    requires AtLineStart(before) && AtLineEnd(after)
    requires '\n' !in raw && '\r' !in raw && '\n' !in c && '\r' !in c && TakesComment(raw, c)
    ensures Parse(before + (raw + " #" + c) + after) == Parse(before + raw + after)
  {
    hide TakesComment, Content, Parse, ParseLines, ReadLine;
    var longer := raw + " #" + c;
    CommentKeepsLineExactly(raw, c);
    ParseOfContent(before + raw + after);
    ParseOfContent(before + longer + after);
    var b := ContentAtLine(before, raw, after);
    var b' := ContentAtLine(before, longer, after);
    LineContent(raw);
    LineContent(longer);
    LineKinds(raw);
    LineKinds(longer);
    if !Ignored(raw) {
      SameReadingSameRun(Content(before), raw, longer, b);
    }
  }

  // ----- scalars written in other ways -----

  /** White space and line terminators, as sections 12.2 and 12.3 of ECMA-262 list them. */
  const SPACES :=
    "\t\n\U{B}\U{C}\r \U{A0}\U{1680}" +
    "\U{2000}\U{2001}\U{2002}\U{2003}\U{2004}\U{2005}\U{2006}\U{2007}\U{2008}\U{2009}\U{200A}" +
    "\U{2028}\U{2029}\U{202F}\U{205F}\U{3000}\U{FEFF}"

  /** Exactly these are trimmed. */
  lemma TrimmedCharacters(c: char)
    ensures Trim([c]) == "" <==> c in SPACES
  {
    hide *;
    OneCharacter([c]);
    WhiteIsSpace(c);
  }

  lemma {:induction false} OneCharacter(s: string)
    requires |s| == 1
    ensures Trim(s) == "" <==> White(s[0])
  {
    hide White, TrimEnd, Trim;
    TrimmedFirst(s);
  }

  lemma WhiteIsSpace(c: char)
    ensures White(c) <==> c in SPACES
  {
    var u := c as int;
    if 9 <= u <= 13 {
      assert SPACES[u - 9] == c;
    } else if 0x2000 <= u <= 0x200A {
      assert SPACES[8 + u - 0x2000] == c;
    } else {
      OtherSpaces(c);
    }
  }

  lemma OtherSpaces(c: char)
    requires !(9 <= c as int <= 13) && !(0x2000 <= c as int <= 0x200A)
    ensures White(c) <==> c in SPACES
  {
    assert SPACES == SPACES[..5] + SPACES[5..8] + SPACES[8..19] + SPACES[19..];
    assert c !in SPACES[..5] && c !in SPACES[8..19];
    assert SPACES[5..8] == [SPACES[5], SPACES[6], SPACES[7]];
    assert SPACES[19..] == [SPACES[19], SPACES[20], SPACES[21], SPACES[22], SPACES[23], SPACES[24]];
  }

  /** Between single quotes as between double ones, every text is read back. */
  lemma SingleQuotedReads(s: string)
    ensures ReadScalar("\'" + s + "\'") == Ok(Text(s))
  {
    var raw := "\'" + s + "\'";
    TrimIsTrimmed(raw);
    hide Trim;
    assert Inner(raw) == s;
  }

  lemma TildeReads()
    ensures ReadScalar("~") == Ok(Nothing)
  {
    TrimIsTrimmed("~");
    hide Trim;
  }

  /** An optional minus sign, digits, and possibly a point and more digits. */
  predicate Numeral(s: string, sign: string, whole: string, fraction: string) {
    && (sign == "" || sign == "-") && Digits(whole) && s == sign + (whole + fraction)
    && (fraction == "" || (fraction[0] == '.' && Digits(fraction[1..])))
  }

  /** The texts that are read as numbers. */
  lemma NumbersExactly(s: string)
    ensures NumberLike(s) <==> exists sign, whole, fraction :: Numeral(s, sign, whole, fraction)
  {
    if NumberLike(s) {
      var sign, whole, fraction := LooksLikeNumeral(s);
    }
    hide NumberLike, Numeral;
    forall sign, whole, fraction | Numeral(s, sign, whole, fraction) ensures NumberLike(s) {
      NumeralLooksLike(s, sign, whole, fraction);
    }
  }

  lemma LooksLikeNumeral(s: string) returns (sign: string, whole: string, fraction: string)
    requires NumberLike(s)
    ensures Numeral(s, sign, whole, fraction)
  {
    hide Digits, Unsigned;
    sign := if s != "" && s[0] == '-' then "-" else "";
    var u := if s != "" && s[0] == '-' then s[1..] else s;
    assert s == sign + u;
    whole, fraction := UnsignedParts(u);
  }

  lemma UnsignedParts(u: string) returns (whole: string, fraction: string)
    requires Unsigned(u)
    ensures u == whole + fraction && Digits(whole) && (fraction == "" || (fraction[0] == '.' && Digits(fraction[1..])))
  {
    hide Digits;
    whole, fraction := u, "";
    if !Digits(u) {
      var i :| 0 <= i < |u| && u[i] == '.' && Digits(u[..i]) && Digits(u[i + 1..]);
      whole, fraction := u[..i], u[i..];
      assert fraction[1..] == u[i + 1..];
    }
  }

  lemma NumeralLooksLike(s: string, sign: string, whole: string, fraction: string)
    requires Numeral(s, sign, whole, fraction)
    ensures NumberLike(s)
  {
    assert whole != "" && '0' <= whole[0];
    hide Digits;
    var u := whole + fraction;
    IsUnsigned(u, whole, fraction);
    hide Unsigned;
    assert u[0] == whole[0];
    if sign == "" {
      assert s == u;
    } else {
      assert s[0] == '-' && s[1..] == u;
    }
  }

  lemma IsUnsigned(u: string, whole: string, fraction: string)
    requires u == whole + fraction && Digits(whole) && (fraction == "" || (fraction[0] == '.' && Digits(fraction[1..])))
    ensures Unsigned(u)
  {
    hide Digits;
    if fraction == "" {
      assert u == whole;
    } else {
      var i := |whole|;
      assert u[i] == '.' && u[..i] == whole && u[i + 1..] == fraction[1..];
    }
  }
}
