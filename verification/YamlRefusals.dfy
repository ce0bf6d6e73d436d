/** What the parser refuses, and with which error: a bad line after any good document, whatever follows. */
module YamlRefusals {
  import opened Wrappers
  import opened YamlText
  import opened YamlParser
  import opened YamlRoundTrip
  import opened YamlInsertion
  import opened YamlComments

  // ----- one line -----

  /** A line with a tab, unless it is blank or a comment. */
  lemma TabIsRefused(stack: Stack, raw: string)
    requires !Ignored(raw) && '\t' in raw
    ensures Step(stack, raw) == Err(TabsNotSupported)
  {
    hide Ignored;
  }

  /** A line without a colon, or with nothing in front of it. */
  lemma NoMappingIsRefused(stack: Stack, raw: string)
    requires !Ignored(raw) && '\t' !in raw && (':' !in raw || Trim(raw)[..1] == ":")
    ensures Step(stack, raw) == Err(InvalidMapping)
  {
    NoMappingReads(raw);
    hide ReadLine;
  }

  lemma NoMappingReads(raw: string)
    requires !Ignored(raw) && '\t' !in raw && (':' !in raw || Trim(raw)[..1] == ":")
    ensures ReadLine(raw) == Malformed(InvalidMapping)
  {
    NotIgnoredBegins(raw);
    TrimmedFirst(raw);
    hide TrimStart, TrimEnd;
    var t := Trim(raw);
    NoColonLeft(raw);
    hide Ignored, Trim, IndexOf, ValueText, Indent;
    if ':' in raw {
      assert t[0] == t[..1][0] == ':';
    }
    ColonPlace(t);
  }

  lemma NoColonLeft(raw: string)
    ensures ':' !in raw ==> ':' !in Trim(raw)
  {
    TrimIsTrimmed(raw);
    hide Trim;
  }

  /** A key its mapping already has, with a value or without. */
  lemma DuplicateIsRefused(stack: Stack, base: Stack, indent: nat, key: string, raw: string)
    requires Reaches(stack, indent, base) && PlainKey(key) && HasKey(Top(base).entries, key)
    ensures GoodLeaf(raw) ==> Step(stack, PairLine(indent, key, raw)) == Err(DuplicateKey)
    ensures Step(stack, HeaderLine(indent, key)) == Err(DuplicateKey)
  {
    hide ReadLine, PairLine, HeaderLine, ParseScalar, ValueText, PlainKey, HasKey, GoodLeaf;
    HeaderLineReads(indent, key);
    if GoodLeaf(raw) {
      PairLineReads(indent, key, raw);
    }
    ReachesPops(stack, indent, base);
    KeyIsSomething(key);
    hide PopTo, Reaches;
  }

  /** A value that is none of the scalars: it opens a flow collection, or looks like a mapping. */
  predicate Unsupported(raw: string) {
    && raw != "" && Trimmed(raw) && OneLine(raw) && !OpensQuote(raw) && IndexOfPair(raw, ' ', '#') == -1
    && (raw[0] == '[' || raw[0] == '{' || IndexOfPair(raw, ':', ' ') != -1)
  }

  lemma UnsupportedReads(raw: string)
    requires Unsupported(raw)
    ensures ValueText(raw) == raw && ReadScalar(raw) == Err(UnsupportedScalar)
  {
    TrimIsTrimmed(raw);
    CommentFree(raw);
    NotWordOrNumber(raw);
    hide Trim, StripComment, NumberLike, IndexOfPair;
  }

  lemma {:induction false} NotWordOrNumber(raw: string)
    requires raw != "" && (raw[0] == '[' || raw[0] == '{' || IndexOfPair(raw, ':', ' ') != -1)
    ensures !Reserved(raw) && !NumberLike(raw)
  {
    NumberChars(raw);
    hide IndexOfPair, NumberLike;
    var i := IndexOfPair(raw, ':', ' ');
    assert raw[0] in raw && (i != -1 ==> raw[i] in raw);
  }

  lemma NumberChars(s: string)
    ensures NumberLike(s) ==> forall c :: c in s ==> ('0' <= c <= '9' || c == '-' || c == '.')
  {
    if NumberLike(s) {
      var sign, whole, fraction := LooksLikeNumeral(s);
      NumeralChars(s, sign, whole, fraction);
    }
    hide NumberLike;
  }

  lemma NumeralChars(s: string, sign: string, whole: string, fraction: string)
    requires Numeral(s, sign, whole, fraction)
    ensures forall c :: c in s ==> ('0' <= c <= '9' || c == '-' || c == '.')
  {
  }

  lemma UnsupportedIsRefused(stack: Stack, base: Stack, indent: nat, key: string, raw: string)
    requires Reaches(stack, indent, base) && PlainKey(key) && !HasKey(Top(base).entries, key) && Unsupported(raw)
    ensures Step(stack, PairLine(indent, key, raw)) == Err(UnsupportedScalar)
  {
    UnsupportedReads(raw);
    ReachesPops(stack, indent, base);
    KeyIsSomething(key);
    UnsupportedLine(indent, key, raw);
    assert raw != "";
    hide ReadLine, PairLine, ParseScalar, ValueText, PlainKey, HasKey, PopTo, Reaches, Unsupported;
  }

  lemma UnsupportedLine(indent: nat, key: string, raw: string)
    requires PlainKey(key) && Unsupported(raw)
    ensures ReadLine(PairLine(indent, key, raw)) == Mapping(indent, key, raw)
  {
    hide ReadLine, PlainKey, ValueText, Spaces, IndexOfPair;
    UnsupportedReads(raw);
    assert key + ": " + raw == key + ":" + (" " + raw);
    BodyReads(indent, key, " " + raw);
    SpaceBefore(raw);
  }

  // ----- after a good document -----

  /** Every stack the printed fields can leave behind meets this line with this error. */
  ghost predicate Refuses(fields: seq<Field>, raw: string, error: YamlError)
    requires GoodFields(fields)
  {
    forall stack: Stack :: Reaches(stack, 0, AddEntries([ROOT], Meaning(fields))) ==> Step(stack, raw) == Err(error)
  }

  lemma {:induction false} PrintedStack(fields: seq<Field>, step: nat) returns (end: Stack)
    requires GoodFields(fields) && step > 0
    ensures Run([ROOT], Content(Print(fields, step))) == Ok(end) && Reaches(end, 0, AddEntries([ROOT], Meaning(fields)))
    ensures AtLineStart(Print(fields, step))
  {
    hide *;
    var lines := BlockLines(fields, 0, step);
    RootReaches(fields);
    end := BlockRun([ROOT], [ROOT], fields, 0, step);
    PrintedSplits(fields, step);
    EmptyLineIsBlank(end);
    RunSnoc([ROOT], lines, "");
    ContentUnfolds(Print(fields, step));
    RunTelling([ROOT], lines + [""]);
    PrintIsUnlines(fields, step);
    UnlinesEnds(lines);
  }

  lemma {:induction false} UnlinesEnds(lines: seq<string>)
    ensures AtLineStart(Unlines(lines))
  {
    if lines != [] {
      UnlinesEnds(lines[1..]);
      assert Unlines(lines) == lines[0] + "\n" + Unlines(lines[1..]);
    }
  }

  lemma {:induction false} ErrorEndsParse(a: seq<string>, raw: string, b: seq<string>, stack: Stack, error: YamlError)
    requires Run([ROOT], a) == Ok(stack) && Step(stack, raw) == Err(error)
    ensures ParseLines(a + [raw] + b) == Err(error)
  {
    hide Step, Close;
    RunSnoc([ROOT], a, raw);
    RunJoins([ROOT], a + [raw], b);
    hide Run;
  }

  /** A refused line after any good document is the end of the parse, whatever follows it. */
  lemma {:induction false} RefusedAfterDocument(fields: seq<Field>, step: nat, raw: string, error: YamlError, after: string)
    requires GoodFields(fields) && step > 0 && Refuses(fields, raw, error) && !Ignored(raw)
    requires '\n' !in raw && '\r' !in raw && AtLineEnd(after)
    ensures Parse(Print(fields, step) + raw + after) == Err(error)
  {
    var end := PrintedStack(fields, step);
    hide *;
    StackRefuses(fields, raw, error, end);
    var b := ContentAtLine(Print(fields, step), raw, after);
    LineContent(raw);
    ParseOfContent(Print(fields, step) + raw + after);
    ErrorEndsParse(Content(Print(fields, step)), raw, b, end, error);
  }

  lemma {:induction false} StackRefuses(fields: seq<Field>, raw: string, error: YamlError, stack: Stack)
    requires GoodFields(fields) && Refuses(fields, raw, error) && Reaches(stack, 0, AddEntries([ROOT], Meaning(fields)))
    ensures Step(stack, raw) == Err(error)
  {
    hide Reaches, AddEntries, Meaning, GoodFields, Step;
  }

  // ----- the refusals of a document -----

  /** A line that is wrong by itself: it has a tab, or no key. */
  predicate BadLine(raw: string, error: YamlError) {
    match error
    case TabsNotSupported => !Ignored(raw) && '\t' in raw
    case InvalidMapping => !Ignored(raw) && '\t' !in raw && (':' !in raw || Trim(raw)[..1] == ":")
    case _ => false
  }

  /** A tab or a missing key ends the parse wherever the line stands. */
  lemma {:induction false} BadLinesAreRefused(fields: seq<Field>, step: nat, raw: string, error: YamlError, after: string)
    requires GoodFields(fields) && step > 0 && '\n' !in raw && '\r' !in raw && AtLineEnd(after)
    requires BadLine(raw, error)
    ensures Parse(Print(fields, step) + raw + after) == Err(error)
  {
    hide Ignored, Trim, Step, Reaches, AddEntries, Meaning, GoodFields, Parse, Print;
    forall stack: Stack | Reaches(stack, 0, AddEntries([ROOT], Meaning(fields))) ensures Step(stack, raw) == Err(error) {
      if error == TabsNotSupported {
        TabIsRefused(stack, raw);
      } else {
        NoMappingIsRefused(stack, raw);
      }
    }
    RefusedAfterDocument(fields, step, raw, error, after);
  }

  /** So does a key the document has already, and a value that is no scalar. */
  lemma {:induction false} BadPairsAreRefused(fields: seq<Field>, step: nat, key: string, raw: string, after: string)
    requires GoodFields(fields) && step > 0 && PlainKey(key) && AtLineEnd(after)
    ensures (exists f :: f in fields && f.key == key) && GoodLeaf(raw) ==>
              Parse(Print(fields, step) + PairLine(0, key, raw) + after) == Err(DuplicateKey)
    ensures (exists f :: f in fields && f.key == key) ==>
              Parse(Print(fields, step) + HeaderLine(0, key) + after) == Err(DuplicateKey)
    ensures (forall f :: f in fields ==> f.key != key) && Unsupported(raw) ==>
              Parse(Print(fields, step) + PairLine(0, key, raw) + after) == Err(UnsupportedScalar)
  {
    KeysOfDocument(fields, key);
    HeaderStaysOnLine(0, key);
    HeaderSays(key);
    hide *;
    if exists f :: f in fields && f.key == key {
      DuplicateRefuses(fields, key, raw);
      RefusedAfterDocument(fields, step, HeaderLine(0, key), DuplicateKey, after);
      if GoodLeaf(raw) {
        PairSays(key, raw);
        RefusedAfterDocument(fields, step, PairLine(0, key, raw), DuplicateKey, after);
      }
    } else if Unsupported(raw) {
      UnsupportedSays(key, raw);
      UnsupportedRefuses(fields, key, raw);
      RefusedAfterDocument(fields, step, PairLine(0, key, raw), UnsupportedScalar, after);
    }
  }

  lemma {:induction false} KeysOfDocument(fields: seq<Field>, key: string)
    requires GoodFields(fields)
    ensures HasKey(Top(AddEntries([ROOT], Meaning(fields))).entries, key) <==> exists f :: f in fields && f.key == key
  {
    var entries := Meaning(fields);
    assert Top(AddEntries([ROOT], entries)).entries == entries;
    hide Meaning, GoodFields;
    if i :| 0 <= i < |entries| && entries[i].key == key {
      assert fields[i] in fields;
    }
    if f :| f in fields && f.key == key {
      var i :| 0 <= i < |fields| && fields[i] == f;
      assert entries[i].key == key;
    }
  }

  lemma HeaderSays(key: string)
    requires PlainKey(key)
    ensures !Ignored(HeaderLine(0, key)) && '\n' !in HeaderLine(0, key) && '\r' !in HeaderLine(0, key)
  {
    HeaderLineReads(0, key);
    LineKinds(HeaderLine(0, key));
    HeaderStaysOnLine(0, key);
    hide ReadLine, Ignored, HeaderLine;
  }

  lemma PairSays(key: string, raw: string)
    requires PlainKey(key) && GoodLeaf(raw)
    ensures !Ignored(PairLine(0, key, raw)) && '\n' !in PairLine(0, key, raw) && '\r' !in PairLine(0, key, raw)
  {
    PairLineReads(0, key, raw);
    LineKinds(PairLine(0, key, raw));
    PairStaysOnLine(0, key, raw);
    hide ReadLine, Ignored, PairLine;
  }

  lemma UnsupportedSays(key: string, raw: string)
    requires PlainKey(key) && Unsupported(raw)
    ensures !Ignored(PairLine(0, key, raw)) && '\n' !in PairLine(0, key, raw) && '\r' !in PairLine(0, key, raw)
  {
    UnsupportedLine(0, key, raw);
    LineKinds(PairLine(0, key, raw));
    assert OneLine(key) && OneLine(raw);
    hide ReadLine, Ignored, IndexOfPair, Unsupported, PlainKey;
    PairHasNoBreak(key, raw);
    hide PairLine;
  }

  lemma PairHasNoBreak(key: string, raw: string)
    requires OneLine(key) && OneLine(raw)
    ensures '\n' !in PairLine(0, key, raw) && '\r' !in PairLine(0, key, raw)
  {
    assert PairLine(0, key, raw) == key + ": " + raw;
  }

  lemma {:induction false} DuplicateRefuses(fields: seq<Field>, key: string, raw: string)
    requires GoodFields(fields) && PlainKey(key) && HasKey(Top(AddEntries([ROOT], Meaning(fields))).entries, key)
    ensures GoodLeaf(raw) ==> Refuses(fields, PairLine(0, key, raw), DuplicateKey)
    ensures Refuses(fields, HeaderLine(0, key), DuplicateKey)
  {
    hide Reaches, AddEntries, Meaning, GoodFields, PlainKey, HasKey, GoodLeaf, PairLine, HeaderLine, Step;
    forall stack: Stack | Reaches(stack, 0, AddEntries([ROOT], Meaning(fields)))
      ensures GoodLeaf(raw) ==> Step(stack, PairLine(0, key, raw)) == Err(DuplicateKey)
      ensures Step(stack, HeaderLine(0, key)) == Err(DuplicateKey)
    {
      DuplicateIsRefused(stack, AddEntries([ROOT], Meaning(fields)), 0, key, raw);
    }
  }

  lemma {:induction false} UnsupportedRefuses(fields: seq<Field>, key: string, raw: string)
    requires GoodFields(fields) && PlainKey(key) && !HasKey(Top(AddEntries([ROOT], Meaning(fields))).entries, key) && Unsupported(raw)
    ensures Refuses(fields, PairLine(0, key, raw), UnsupportedScalar)
  {
    hide Reaches, AddEntries, Meaning, GoodFields, PlainKey, HasKey, PairLine, Step, Unsupported;
    forall stack: Stack | Reaches(stack, 0, AddEntries([ROOT], Meaning(fields)))
      ensures Step(stack, PairLine(0, key, raw)) == Err(UnsupportedScalar)
    {
      UnsupportedIsRefused(stack, AddEntries([ROOT], Meaning(fields)), 0, key, raw);
    }
  }

  // ----- a key without anything under it -----

  /** A header with no entry under it is refused when the file ends, or at the next line that is not indented
      further. */
  lemma {:induction false} EmptyMappingIsRefused(fields: seq<Field>, step: nat, key: string, after: string)
    requires GoodFields(fields) && step > 0 && PlainKey(key) && (forall f :: f in fields ==> f.key != key)
    requires AtLineEnd(after) && (after == "" || Content(after[1..]) == [] || Outdents(Content(after[1..])[0]))
    ensures Parse(Print(fields, step) + HeaderLine(0, key) + after) == Err(EmptyObject)
  {
    KeysOfDocument(fields, key);
    HeaderSays(key);
    var b := [];
    if after != "" {
      b := Content(after[1..]);
    }
    OpenHeaderRuns(fields, step, key, after, b);
  }

  lemma {:induction false} OpenHeaderRuns(fields: seq<Field>, step: nat, key: string, after: string, b: seq<string>)
    requires GoodFields(fields) && step > 0 && PlainKey(key)
    requires !HasKey(Top(AddEntries([ROOT], Meaning(fields))).entries, key)
    requires !Ignored(HeaderLine(0, key)) && '\n' !in HeaderLine(0, key) && '\r' !in HeaderLine(0, key)
    requires AtLineEnd(after) && b == (if after == "" then [] else Content(after[1..])) && (b == [] || Outdents(b[0]))
    ensures Parse(Print(fields, step) + HeaderLine(0, key) + after) == Err(EmptyObject)
  {
    hide *;
    var end := PrintedStack(fields, step);
    var header, base := HeaderLine(0, key), AddEntries([ROOT], Meaning(fields));
    HeaderStep(end, base, 0, key, 1);
    var open: Stack := base + [Frame(0, key, [])];
    var source := Print(fields, step) + header + after;
    var b' := ContentAtLine(Print(fields, step), header, after);
    LineContent(header);
    ParseOfContent(source);
    RunOn(Content(Print(fields, step)), header, b, end, open);
    OpenHeaderFails(open, b, Content(source), key, base);
  }

  lemma {:induction false} RunOn(a: seq<string>, raw: string, b: seq<string>, stack: Stack, next: Stack)
    requires Run([ROOT], a) == Ok(stack) && Step(stack, raw) == Ok(next)
    ensures Run([ROOT], a + [raw] + b) == Run(next, b)
  {
    hide Step;
    RunSnoc([ROOT], a, raw);
    RunJoins([ROOT], a + [raw], b);
    hide Run;
  }

  /** A line that is not indented, if it is a mapping at all. */
  predicate Outdents(raw: string) {
    ReadLine(raw).Mapping? && ReadLine(raw).indent == 0
  }

  lemma {:induction false} OpenHeaderFails(open: Stack, b: seq<string>, lines: seq<string>, key: string, base: Stack)
    requires open == base + [Frame(0, key, [])] && Run([ROOT], lines) == Run(open, b)
    requires b == [] || Outdents(b[0])
    ensures ParseLines(lines) == Err(EmptyObject)
  {
    hide ReadLine, Place;
    assert Top(open) == Frame(0, key, []);
    if b == [] {
      RunNothing(open);
    }
  }
}
