/** Printing a tree as indented block mappings and parsing it back. */
module YamlRoundTrip {
  import opened Wrappers
  import opened YamlText
  import opened YamlParser

  /** A document as it is laid out: each leaf is the text written after its key. */
  datatype Doc = Leaf(raw: string) | Block(fields: seq<Field>)

  datatype Field = Field(key: string, value: Doc)

  // ----- printing -----

  function PairLine(indent: nat, key: string, raw: string): string {
    Spaces(indent) + (key + ": " + raw)
  }

  function HeaderLine(indent: nat, key: string): string {
    Spaces(indent) + (key + ":")
  }

  function FieldLines(f: Field, indent: nat, step: nat): seq<string>
    decreases f, 0
  {
    match f.value
    case Leaf(raw) => [PairLine(indent, f.key, raw)]
    case Block(fields) => [HeaderLine(indent, f.key)] + BlockLines(fields, indent + step, step)
  }

  function BlockLines(fields: seq<Field>, indent: nat, step: nat): seq<string>
    decreases fields, 0
  {
    if fields == [] then [] else FieldLines(fields[0], indent, step) + BlockLines(fields[1..], indent, step)
  }

  /** Lines as a file holds them, each ended by a newline. */
  function Unlines(lines: seq<string>): string {
    if lines == [] then "" else lines[0] + "\n" + Unlines(lines[1..])
  }

  function Print(fields: seq<Field>, step: nat): string {
    Unlines(BlockLines(fields, 0, step))
  }

  // ----- meaning -----

  /** A leaf that can stand after a key: it stays on its line and reads as a scalar. */
  predicate GoodLeaf(raw: string) {
    raw != "" && Trimmed(raw) && OneLine(raw) && ValueText(raw) != "" && ReadScalar(raw).Ok?
  }

  predicate UniqueNames(fields: seq<Field>) {
    forall i, j :: 0 <= i < j < |fields| ==> fields[i].key != fields[j].key
  }

  predicate GoodFields(fields: seq<Field>)
    decreases fields, 0
  {
    UniqueNames(fields) && forall i :: 0 <= i < |fields| ==> GoodField(fields[i])
  }

  predicate GoodField(f: Field)
    decreases f, 0
  {
    PlainKey(f.key) &&
    match f.value
    case Leaf(raw) => GoodLeaf(raw)
    case Block(fields) => fields != [] && GoodFields(fields)
  }

  function FieldMeaning(f: Field): Entry
    requires GoodField(f)
    decreases f, 0
  {
    match f.value
    case Leaf(raw) => Entry(f.key, ReadScalar(raw).value)
    case Block(fields) => Entry(f.key, Map(Meaning(fields)))
  }

  function Meaning(fields: seq<Field>): (entries: seq<Entry>)
    requires GoodFields(fields)
    ensures |entries| == |fields|
    ensures forall i :: 0 <= i < |fields| ==> entries[i].key == fields[i].key
    decreases fields, 0
  {
    if fields == [] then [] else [FieldMeaning(fields[0])] + Meaning(fields[1..])
  }

  // ----- printed lines are read as written -----

  lemma PairLineReads(indent: nat, key: string, raw: string)
    requires PlainKey(key) && GoodLeaf(raw)
    ensures ReadLine(PairLine(indent, key, raw)) == Mapping(indent, key, ValueText(raw))
  {
    hide ReadLine, PlainKey, ValueText, Spaces;
    assert key + ": " + raw == key + ":" + (" " + raw);
    BodyReads(indent, key, " " + raw);
    SpaceBefore(raw);
  }

  lemma HeaderLineReads(indent: nat, key: string)
    requires PlainKey(key)
    ensures ReadLine(HeaderLine(indent, key)) == Mapping(indent, key, "")
  {
    hide ReadLine, PlainKey, Spaces;
    assert key + ":" == key + ":" + "";
    BodyReads(indent, key, "");
    assert ValueText("") == "";
  }

  lemma BodyReads(indent: nat, key: string, after: string)
    requires PlainKey(key) && OneLine(after) && (after == "" || !White(after[|after| - 1]))
    ensures ReadLine(Spaces(indent) + (key + ":" + after)) == Mapping(indent, key, ValueText(after))
  {
    hide Trim, TrimStart, ValueText, IndexOf, Indent, Spaces;
    var body := key + ":" + after;
    assert body[0] == key[0] && body[|body| - 1] == if after == "" then ':' else after[|after| - 1];
    PaddedIsBody(indent, body);
    NoTabs(indent, body);
    FirstColon(key, after);
    assert body[..|key|] == key && body[|key| + 1..] == after;
    TrimIsTrimmed(key);
    hide PlainKey, OneLine, White, Trimmed;
    assert !Ignored(Spaces(indent) + body);
  }

  lemma {:induction false} PaddedIsBody(indent: nat, body: string)
    requires body != "" && !White(body[0]) && !White(body[|body| - 1])
    ensures Indent(Spaces(indent) + body) == indent && TrimStart(Spaces(indent) + body) == body
    ensures Trim(Spaces(indent) + body) == body
  {
    PaddedLine(indent, body);
  }

  lemma NoTabs(indent: nat, body: string)
    requires '\t' !in body
    ensures '\t' !in Spaces(indent) + body
  {
  }

  lemma SpaceBefore(raw: string)
    requires raw != "" && Trimmed(raw)
    ensures ValueText(" " + raw) == ValueText(raw)
  {
  }

  // ----- the stack after a printed subtree -----

  /** Popping to one depth and then to a lesser one is popping to the lesser. */
  lemma {:induction false} PopsCompose(stack: Stack, deep: int, shallow: int)
    requires shallow <= deep && PopTo(stack, deep).Ok?
    ensures PopTo(stack, shallow) == PopTo(PopTo(stack, deep).value, shallow)
    decreases |stack|
  {
    if |stack| > 1 && deep <= Top(stack).indent && Top(stack).entries != [] {
      PopsCompose(Attach(stack), deep, shallow);
    }
  }

  /** The stack is, but for mappings a line at this indentation closes, this one. */
  predicate Reaches(stack: Stack, indent: nat, base: Stack) {
    PopTo(stack, indent) == Ok(base) && Top(base).indent < indent
  }

  lemma LeafStep(stack: Stack, base: Stack, indent: nat, key: string, raw: string)
    requires Reaches(stack, indent, base) && PlainKey(key) && GoodLeaf(raw) && !HasKey(Top(base).entries, key)
    ensures Step(stack, PairLine(indent, key, raw)) == Ok(AddEntry(base, Entry(key, ReadScalar(raw).value)))
    ensures Reaches(AddEntry(base, Entry(key, ReadScalar(raw).value)), indent, AddEntry(base, Entry(key, ReadScalar(raw).value)))
  {
    hide ReadLine, PairLine, ParseScalar, ValueText, PlainKey, HasKey, OneLine, Trimmed;
    PairLineReads(indent, key, raw);
    ReachesPops(stack, indent, base);
    KeyIsSomething(key);
    hide PopTo, GoodLeaf;
    LeafHasValue(raw);
    AddKeepsReach(base, indent, Entry(key, ReadScalar(raw).value));
    hide Reaches, AddEntry;
  }

  lemma {:induction false} ReachesPops(stack: Stack, indent: nat, base: Stack)
    requires Reaches(stack, indent, base)
    ensures PopTo(stack, indent) == Ok(base) && Top(base).indent < indent
  {
  }

  lemma KeyIsSomething(key: string)
    requires PlainKey(key)
    ensures key != ""
  {
  }

  lemma LeafHasValue(raw: string)
    requires GoodLeaf(raw)
    ensures ValueText(raw) != "" && ReadScalar(raw).Ok?
  {
  }

  lemma AddKeepsReach(base: Stack, indent: nat, e: Entry)
    requires Top(base).indent < indent
    ensures Reaches(AddEntry(base, e), indent, AddEntry(base, e))
  {
  }

  lemma HeaderStep(stack: Stack, base: Stack, indent: nat, key: string, deeper: nat)
    requires Reaches(stack, indent, base) && PlainKey(key) && !HasKey(Top(base).entries, key) && indent < deeper
    ensures Step(stack, HeaderLine(indent, key)) == Ok(base + [Frame(indent, key, [])])
    ensures Reaches(base + [Frame(indent, key, [])], deeper, base + [Frame(indent, key, [])])
  {
    hide ReadLine, HeaderLine, ParseScalar, PlainKey, HasKey;
    HeaderLineReads(indent, key);
    ReachesPops(stack, indent, base);
    KeyIsSomething(key);
    PushKeepsReach(base, Frame(indent, key, []), deeper);
    hide PopTo, Reaches;
  }

  lemma PushKeepsReach(base: Stack, f: Frame, deeper: nat)
    requires f.indent < deeper
    ensures Reaches(base + [f], deeper, base + [f])
  {
  }

  /** A subtree whose mapping is still open is closed by the next line at its own indentation. */
  lemma BlockCloses(stack: Stack, base: Stack, indent: nat, key: string, deeper: nat, entries: seq<Entry>)
    requires Top(base).indent < indent < deeper && entries != []
    requires Reaches(stack, deeper, base + [Frame(indent, key, entries)])
    ensures Reaches(stack, indent, AddEntry(base, Entry(key, Map(entries))))
  {
    PopsCompose(stack, deeper, indent);
    var open: Stack := base + [Frame(indent, key, entries)];
    assert Attach(open) == AddEntry(base, Entry(key, Map(entries)));
    assert PopTo(open, indent) == PopTo(Attach(open), indent);
  }

  function AddEntries(stack: Stack, entries: seq<Entry>): Stack {
    stack[..|stack| - 1] + [Top(stack).(entries := Top(stack).entries + entries)]
  }

  predicate NewKeys(entries: seq<Entry>, fields: seq<Field>) {
    forall i :: 0 <= i < |fields| ==> !HasKey(entries, fields[i].key)
  }

  /** The printed lines of a field leave the stack with exactly that field added where they started. */
  lemma {:induction false} FieldRun(stack: Stack, base: Stack, f: Field, indent: nat, step: nat)
    returns (end: Stack)
    requires Reaches(stack, indent, base) && GoodField(f) && !HasKey(Top(base).entries, f.key) && step > 0
    ensures Run(stack, FieldLines(f, indent, step)) == Ok(end)
    ensures Reaches(end, indent, AddEntry(base, FieldMeaning(f)))
    decreases f, 1
  {
    hide *;
    FieldUnfolds(f, indent, step);
    match f.value
    case Leaf(raw) =>
      end := LeafRun(stack, base, f.key, raw, indent);
    case Block(fields) =>
      HeaderStep(stack, base, indent, f.key, indent + step);
      var open: Stack := base + [Frame(indent, f.key, [])];
      OpenFrame(base, indent, f.key, Meaning(fields));
      end := BlockRun(open, open, fields, indent + step, step);
      ReachesBelow(stack, base, indent);
      BlockCloses(end, base, indent, f.key, indent + step, Meaning(fields));
      HeaderThenBlock(stack, open, end, indent, f.key, BlockLines(fields, indent + step, step));
  }

  lemma ReachesBelow(stack: Stack, base: Stack, indent: nat)
    requires Reaches(stack, indent, base)
    ensures Top(base).indent < indent
  {
  }

  lemma OpenFrame(base: Stack, indent: nat, key: string, entries: seq<Entry>)
    ensures var open: Stack := base + [Frame(indent, key, [])];
            Top(open).entries == [] && AddEntries(open, entries) == base + [Frame(indent, key, entries)]
  {
    assert [] + entries == entries;
  }

  lemma {:induction false} FieldUnfolds(f: Field, indent: nat, step: nat)
    requires GoodField(f)
    ensures PlainKey(f.key)
    ensures f.value.Leaf? ==> (
      GoodLeaf(f.value.raw) && ReadScalar(f.value.raw).Ok? && FieldLines(f, indent, step) == [PairLine(indent, f.key, f.value.raw)] &&
      FieldMeaning(f) == Entry(f.key, ReadScalar(f.value.raw).value))
    ensures f.value.Block? ==> (
      GoodFields(f.value.fields) && NewKeys([], f.value.fields) && Meaning(f.value.fields) != [] &&
      FieldLines(f, indent, step) == [HeaderLine(indent, f.key)] + BlockLines(f.value.fields, indent + step, step) &&
      FieldMeaning(f) == Entry(f.key, Map(Meaning(f.value.fields))))
  {
  }

  lemma LeafRun(stack: Stack, base: Stack, key: string, raw: string, indent: nat) returns (end: Stack)
    requires Reaches(stack, indent, base) && PlainKey(key) && GoodLeaf(raw) && !HasKey(Top(base).entries, key)
    ensures Run(stack, [PairLine(indent, key, raw)]) == Ok(end)
    ensures Reaches(end, indent, AddEntry(base, Entry(key, ReadScalar(raw).value)))
  {
    LeafStep(stack, base, indent, key, raw);
    end := AddEntry(base, Entry(key, ReadScalar(raw).value));
    hide Step, PlainKey, GoodLeaf, HasKey, Reaches, PairLine;
    RunNothing(end);
    assert [PairLine(indent, key, raw)][1..] == [];
  }

  lemma {:induction false} HeaderThenBlock(stack: Stack, open: Stack, end: Stack, indent: nat, key: string, lines: seq<string>)
    requires Step(stack, HeaderLine(indent, key)) == Ok(open) && Run(open, lines) == Ok(end)
    ensures Run(stack, [HeaderLine(indent, key)] + lines) == Ok(end)
  {
  }

  lemma {:induction false} BlockRun(stack: Stack, base: Stack, fields: seq<Field>, indent: nat, step: nat)
    returns (end: Stack)
    requires Reaches(stack, indent, base) && GoodFields(fields) && NewKeys(Top(base).entries, fields) && step > 0
    ensures Run(stack, BlockLines(fields, indent, step)) == Ok(end)
    ensures Reaches(end, indent, AddEntries(base, Meaning(fields)))
    decreases fields, 1
  {
    hide Run, Reaches, FieldLines, AddEntry, AddEntries, HasKey, GoodField, FieldMeaning;
    if fields == [] {
      RunNothing(stack);
      AddNothing(base);
      end := stack;
    } else {
      var f, rest := fields[0], fields[1..];
      var middle := FieldRun(stack, base, f, indent, step);
      var base' := AddEntry(base, FieldMeaning(f));
      RestIsNew(Top(base).entries, fields);
      AddInTurn(base, FieldMeaning(f), Meaning(rest));
      end := BlockRun(middle, base', rest, indent, step);
      RunJoins(stack, FieldLines(f, indent, step), BlockLines(rest, indent, step));
    }
  }

  lemma AddNothing(base: Stack)
    ensures AddEntries(base, []) == base
  {
    assert Top(base).(entries := Top(base).entries + []) == Top(base);
  }

  lemma AddInTurn(base: Stack, e: Entry, entries: seq<Entry>)
    ensures Top(AddEntry(base, e)).entries == Top(base).entries + [e]
    ensures AddEntries(AddEntry(base, e), entries) == AddEntries(base, [e] + entries)
  {
    assert Top(base).entries + [e] + entries == Top(base).entries + ([e] + entries);
  }

  lemma {:induction false} RestIsNew(entries: seq<Entry>, fields: seq<Field>)
    requires GoodFields(fields) && fields != [] && NewKeys(entries, fields)
    ensures GoodFields(fields[1..]) && NewKeys(entries + [FieldMeaning(fields[0])], fields[1..])
  {
  }

  // ----- lines and text -----

  lemma {:induction false} LinesOfField(f: Field, indent: nat, step: nat)
    requires GoodField(f)
    ensures forall i :: 0 <= i < |FieldLines(f, indent, step)| ==> OneLine(FieldLines(f, indent, step)[i])
    decreases f, 1
  {
    hide *;
    FieldUnfolds(f, indent, step);
    if f.value.Leaf? {
      PairStaysOnLine(indent, f.key, f.value.raw);
    } else {
      HeaderStaysOnLine(indent, f.key);
      EachIsGood(f.value.fields);
      LinesOfBlock(f.value.fields, indent + step, step);
    }
  }

  lemma {:induction false} EachIsGood(fields: seq<Field>)
    requires GoodFields(fields)
    ensures forall i :: 0 <= i < |fields| ==> GoodField(fields[i])
  {
  }

  lemma PairStaysOnLine(indent: nat, key: string, raw: string)
    requires PlainKey(key) && GoodLeaf(raw)
    ensures OneLine(PairLine(indent, key, raw))
  {
    hide ParseScalar, ValueText, Trimmed, ReadScalar;
  }

  lemma HeaderStaysOnLine(indent: nat, key: string)
    requires PlainKey(key)
    ensures OneLine(HeaderLine(indent, key))
  {
  }

  lemma {:induction false} LinesOfBlock(fields: seq<Field>, indent: nat, step: nat)
    requires forall i :: 0 <= i < |fields| ==> GoodField(fields[i])
    ensures forall i :: 0 <= i < |BlockLines(fields, indent, step)| ==> OneLine(BlockLines(fields, indent, step)[i])
    decreases fields, 1
  {
    hide OneLine, GoodField, FieldLines;
    if fields != [] {
      LinesOfField(fields[0], indent, step);
      LinesOfBlock(fields[1..], indent, step);
    }
  }

  lemma {:induction false} SplitJoins(a: string, b: string)
    ensures Split(a + "\n" + b) == Split(a) + Split(b)
    decreases |a|
  {
    if a == "" {
      assert (a + "\n" + b)[1..] == b;
    } else {
      assert (a + "\n" + b)[1..] == a[1..] + "\n" + b;
      SplitJoins(a[1..], b);
    }
  }

  lemma {:induction false} SplitOneLine(s: string)
    requires '\n' !in s
    ensures Split(s) == [s]
    decreases |s|
  {
    if s != "" {
      assert s == [s[0]] + s[1..];
      SplitOneLine(s[1..]);
    }
  }

  lemma {:induction false} SplitUnlines(lines: seq<string>)
    requires forall i :: 0 <= i < |lines| ==> OneLine(lines[i])
    ensures Split(Unlines(lines)) == lines + [""]
  {
    if lines != [] {
      SplitUnlines(lines[1..]);
      SplitJoins(lines[0], Unlines(lines[1..]));
      SplitOneLine(lines[0]);
      assert lines == [lines[0]] + lines[1..];
    }
  }

  lemma {:induction false} UnlinesHasNoReturns(lines: seq<string>)
    requires forall i :: 0 <= i < |lines| ==> OneLine(lines[i])
    ensures '\r' !in Unlines(lines)
  {
    if lines != [] {
      UnlinesHasNoReturns(lines[1..]);
      assert OneLine(lines[0]);
    }
  }

  lemma {:induction false} UnixTextKeeps(s: string)
    requires '\r' !in s
    ensures UnixText(s) == s
    decreases |s|
  {
    if s != "" {
      assert s[0] in s && s == [s[0]] + s[1..];
      UnixTextKeeps(s[1..]);
    }
  }

  // ----- round trips -----

  /** Closing a stack closes what lies between it and any stack it pops to. */
  lemma {:induction false} CloseAfterPop(stack: Stack, indent: int)
    requires PopTo(stack, indent).Ok?
    ensures Close(stack) == Close(PopTo(stack, indent).value)
    decreases |stack|
  {
    if |stack| > 1 && indent <= Top(stack).indent && Top(stack).entries != [] {
      CloseAfterPop(Attach(stack), indent);
    }
  }

  /** Every document, printed with any indentation step, is parsed back to what it means. */
  lemma {:induction false} PrintedParses(fields: seq<Field>, step: nat)
    requires GoodFields(fields) && step > 0
    ensures Parse(Print(fields, step)) == Ok(Meaning(fields))
  {
    hide *;
    var lines := BlockLines(fields, 0, step);
    RootReaches(fields);
    var end := BlockRun([ROOT], [ROOT], fields, 0, step);
    PrintedSplits(fields, step);
    EmptyLineIsBlank(end);
    RunSnoc([ROOT], lines, "");
    RootCloses(end, Meaning(fields));
    ParseUnfolds(Print(fields, step));
  }

  lemma {:induction false} RootReaches(fields: seq<Field>)
    requires GoodFields(fields)
    ensures Reaches([ROOT], 0, [ROOT]) && NewKeys(Top([ROOT]).entries, fields)
  {
  }

  lemma {:induction false} RootCloses(end: Stack, entries: seq<Entry>)
    requires Reaches(end, 0, AddEntries([ROOT], entries))
    ensures Close(end) == Ok(entries)
  {
    CloseAfterPop(end, 0);
    assert [] + entries == entries;
  }

  lemma EmptyLineIsBlank(stack: Stack)
    ensures Step(stack, "") == Ok(stack)
  {
  }

  lemma {:induction false} PrintIsUnlines(fields: seq<Field>, step: nat)
    ensures Print(fields, step) == Unlines(BlockLines(fields, 0, step))
  {
  }

  lemma {:induction false} PrintedSplits(fields: seq<Field>, step: nat)
    requires GoodFields(fields)
    ensures Split(UnixText(Print(fields, step))) == BlockLines(fields, 0, step) + [""]
  {
    hide *;
    EachIsGood(fields);
    LinesOfBlock(fields, 0, step);
    var lines := BlockLines(fields, 0, step);
    UnlinesHasNoReturns(lines);
    UnixTextKeeps(Unlines(lines));
    SplitUnlines(lines);
    PrintIsUnlines(fields, step);
  }
}
