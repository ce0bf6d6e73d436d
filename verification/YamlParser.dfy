/** The configuration parser for block mappings: a stack of open mappings, deeper ones indented further,
    driven line by line. A frame carries the entries its mapping has so far; they are handed to the
    parent when the frame is popped. */
module YamlParser {
  import opened Wrappers
  import opened YamlText

  datatype Frame = Frame(indent: int, key: string, entries: seq<Entry>)

  type Stack = s: seq<Frame> | s != [] witness [Frame(-1, "", [])]

  const ROOT := Frame(-1, "", [])

  /** What a line says, once white space, comments and colons have been dealt with. */
  datatype Line = Blank | Malformed(error: YamlError) | Mapping(indent: nat, key: string, value: string)

  // ----- lines -----

  /** Carriage returns, alone or before a newline, become newlines. */
  function UnixText(s: string): string
    decreases |s|
  {
    if s == "" then ""
    else if s[0] != '\r' then [s[0]] + UnixText(s[1..])
    else if |s| > 1 && s[1] == '\n' then "\n" + UnixText(s[2..])
    else "\n" + UnixText(s[1..])
  }

  function Split(s: string): (lines: seq<string>)
    ensures |lines| > 0
    decreases |s|
  {
    if s == "" then [""]
    else
      var rest := Split(s[1..]);
      if s[0] == '\n' then [""] + rest else [[s[0]] + rest[0]] + rest[1..]
  }

  predicate Ignored(raw: string) {
    Trim(raw) == "" || (TrimStart(raw) != "" && TrimStart(raw)[0] == '#')
  }

  function ReadLine(raw: string): Line {
    if Ignored(raw) then Blank
    else if '\t' in raw then Malformed(TabsNotSupported)
    else
      var trimmed := Trim(raw);
      var colon := IndexOf(trimmed, ':');
      if colon <= 0 then Malformed(InvalidMapping)
      else Mapping(Indent(raw), Trim(trimmed[..colon]), ValueText(trimmed[colon + 1..]))
  }

  // ----- the stack -----

  function Top(stack: Stack): Frame {
    stack[|stack| - 1]
  }

  /** The stack without its top frame, whose mapping is now an entry of the frame below. */
  function Attach(stack: Stack): (r: Stack)
    requires |stack| > 1
    ensures |r| == |stack| - 1
  {
    var below := stack[|stack| - 2];
    stack[..|stack| - 2] + [below.(entries := below.entries + [Entry(Top(stack).key, Map(Top(stack).entries))])]
  }

  /** Pop what a line at this indentation closes. */
  function PopTo(stack: Stack, indent: int): Result<Stack, YamlError>
    decreases |stack|
  {
    if |stack| > 1 && indent <= Top(stack).indent then
      if Top(stack).entries == [] then Err(EmptyObject) else PopTo(Attach(stack), indent)
    else Ok(stack)
  }

  predicate HasKey(entries: seq<Entry>, key: string) {
    exists i :: 0 <= i < |entries| && entries[i].key == key
  }

  function AddEntry(stack: Stack, e: Entry): Stack {
    stack[..|stack| - 1] + [Top(stack).(entries := Top(stack).entries + [e])]
  }

  function Place(stack: Stack, indent: nat, key: string, value: string): Result<Stack, YamlError> {
    if indent <= Top(stack).indent then Err(InvalidIndentation)
    else if key == "" then Err(InvalidKey)
    else if HasKey(Top(stack).entries, key) then Err(DuplicateKey)
    else if value == "" then Ok(stack + [Frame(indent, key, [])])
    else
      var scalar := ParseScalar(value);
      if scalar.Err? then Err(scalar.error) else Ok(AddEntry(stack, Entry(key, scalar.value)))
  }

  function Step(stack: Stack, raw: string): Result<Stack, YamlError> {
    match ReadLine(raw)
    case Blank => Ok(stack)
    case Malformed(error) => Err(error)
    case Mapping(indent, key, value) =>
      var popped := PopTo(stack, indent);
      if popped.Err? then popped else Place(popped.value, indent, key, value)
  }

  function Run(stack: Stack, lines: seq<string>): Result<Stack, YamlError>
    decreases |lines|
  {
    if lines == [] then Ok(stack)
    else
      var next := Step(stack, lines[0]);
      if next.Err? then next else Run(next.value, lines[1..])
  }

  function Close(stack: Stack): Result<seq<Entry>, YamlError>
    decreases |stack|
  {
    if |stack| == 1 then Ok(stack[0].entries)
    else if Top(stack).entries == [] then Err(EmptyObject)
    else Close(Attach(stack))
  }

  function ParseLines(lines: seq<string>): Result<seq<Entry>, YamlError> {
    var end := Run([ROOT], lines);
    if end.Err? then Err(end.error) else Close(end.value)
  }

  function Parse(source: string): Result<seq<Entry>, YamlError> {
    ParseLines(Split(UnixText(source)))
  }

  lemma {:induction false} RunSnoc(stack: Stack, lines: seq<string>, raw: string)
    ensures var so := Run(stack, lines);
            Run(stack, lines + [raw]) == if so.Err? then so else Step(so.value, raw)
    decreases |lines|
  {
    hide Step;
    if lines == [] {
      assert (lines + [raw])[1..] == [];
    } else {
      assert (lines + [raw])[1..] == lines[1..] + [raw];
      var next := Step(stack, lines[0]);
      if next.Ok? {
        RunSnoc(next.value, lines[1..], raw);
      }
    }
  }

  lemma {:induction false} RunJoins(stack: Stack, a: seq<string>, b: seq<string>)
    ensures var so := Run(stack, a);
            Run(stack, a + b) == if so.Err? then so else Run(so.value, b)
    decreases |a|
  {
    hide Step;
    if a == [] {
      assert a + b == b;
    } else {
      assert (a + b)[1..] == a[1..] + b;
      var next := Step(stack, a[0]);
      if next.Ok? {
        RunJoins(next.value, a[1..], b);
      }
    }
  }

  lemma {:induction false} ErrorEndsRun(stack: Stack, lines: seq<string>, i: nat)
    requires i <= |lines| && Run(stack, lines[..i]).Err?
    ensures Run(stack, lines) == Run(stack, lines[..i])
  {
    hide *;
    RunJoins(stack, lines[..i], lines[i..]);
    assert lines[..i] + lines[i..] == lines;
  }

  /** The parser's loops: lines outside, pops inside, and the frames still open at the end. */
  method ParseYamlObject(source: string) returns (r: Result<seq<Entry>, YamlError>)
    ensures r == Parse(source)
  {
    hide *;
    ParseUnfolds(source);
    var lines := Split(UnixText(source));
    var stack: Stack := [ROOT];
    RunNothing(stack);
    assert lines[..0] == [];
    for n := 0 to |lines|
      invariant Run([ROOT], lines[..n]) == Ok(stack)
    {
      var raw := lines[n];
      assert lines[..n + 1] == lines[..n] + [raw];
      RunSnoc([ROOT], lines[..n], raw);
      var next := StepLine(stack, raw);
      if next.Err? {
        ErrorEndsRun([ROOT], lines, n + 1);
        return Err(next.error);
      }
      stack := next.value;
    }
    assert lines[..|lines|] == lines;
    r := CloseAll(stack);
  }

  lemma {:induction false} ParseUnfolds(source: string)
    ensures Parse(source) == var end := Run([ROOT], Split(UnixText(source)));
                             if end.Err? then Err(end.error) else Close(end.value)
  {
  }

  lemma {:induction false} RunNothing(stack: Stack)
    ensures Run(stack, []) == Ok(stack)
  {
  }

  method StepLine(stack: Stack, raw: string) returns (r: Result<Stack, YamlError>)
    ensures r == Step(stack, raw)
  {
    hide TrimStart, TrimEnd, IndexOf, Indent, ValueText, ParseScalar;
    if Trim(raw) == "" || (TrimStart(raw) != "" && TrimStart(raw)[0] == '#') { return Ok(stack); }
    if '\t' in raw { return Err(TabsNotSupported); }
    var indent := Indent(raw);
    var trimmed := Trim(raw);
    var colon := IndexOf(trimmed, ':');
    if colon <= 0 { return Err(InvalidMapping); }
    var popped := Pops(stack, indent);
    if popped.Err? { return popped; }
    r := Place(popped.value, indent, Trim(trimmed[..colon]), ValueText(trimmed[colon + 1..]));
  }

  method Pops(start: Stack, indent: int) returns (r: Result<Stack, YamlError>)
    ensures r == PopTo(start, indent)
  {
    var stack := start;
    while |stack| > 1 && indent <= Top(stack).indent
      invariant PopTo(stack, indent) == PopTo(start, indent)
      decreases |stack|
    {
      if Top(stack).entries == [] { return Err(EmptyObject); }
      stack := Attach(stack);
    }
    r := Ok(stack);
  }

  method CloseAll(start: Stack) returns (r: Result<seq<Entry>, YamlError>)
    ensures r == Close(start)
  {
    var stack := start;
    while |stack| > 1
      invariant Close(stack) == Close(start)
      decreases |stack|
    {
      if Top(stack).entries == [] { return Err(EmptyObject); }
      stack := Attach(stack);
    }
    r := Ok(stack[0].entries);
  }

  // ----- what every parse keeps -----

  /** Text that stays on its line and holds no tab. */
  predicate OneLine(s: string) {
    '\t' !in s && '\n' !in s && '\r' !in s
  }

  /** A key that a line can carry. */
  predicate PlainKey(key: string) {
    key != "" && Trimmed(key) && OneLine(key) && ':' !in key && key[0] != '#'
  }

  predicate UniqueKeys(entries: seq<Entry>) {
    forall i, j :: 0 <= i < j < |entries| ==> entries[i].key != entries[j].key
  }

  /** The trees a configuration file can hold: nested mappings have entries, keys are plain and
      distinct, texts stay on their line, numbers look like numbers. */
  predicate Proper(v: Node)
    decreases v
  {
    match v
    case Map(entries) => entries != [] && ProperEntries(entries)
    case Text(text) => OneLine(text)
    case Number(literal) => NumberLike(literal) && OneLine(literal)
    case _ => true
  }

  predicate ProperEntries(entries: seq<Entry>)
    decreases entries
  {
    UniqueKeys(entries) && forall i :: 0 <= i < |entries| ==> PlainKey(entries[i].key) && Proper(entries[i].value)
  }

  /** A mapping opened inside another: indented further, under a plain key that is new there. */
  predicate Inside(outer: Frame, inner: Frame) {
    outer.indent < inner.indent && PlainKey(inner.key) && !HasKey(outer.entries, inner.key)
  }

  predicate SoundStack(stack: Stack) {
    && stack[0].indent == -1
    && (forall k :: 0 <= k < |stack| ==> ProperEntries(stack[k].entries))
    && (forall k :: 0 < k < |stack| ==> Inside(stack[k - 1], stack[k]))
  }

  lemma AttachKeepsSound(stack: Stack)
    requires SoundStack(stack) && |stack| > 1 && Top(stack).entries != []
    ensures SoundStack(Attach(stack))
  {
  }

  lemma {:induction false} PopKeepsSound(stack: Stack, indent: int)
    requires SoundStack(stack)
    ensures PopTo(stack, indent).Ok? ==> SoundStack(PopTo(stack, indent).value)
    ensures PopTo(stack, indent).Ok? && indent >= 0 ==> Top(PopTo(stack, indent).value).indent < indent
    decreases |stack|
  {
    if |stack| > 1 && indent <= Top(stack).indent && Top(stack).entries != [] {
      AttachKeepsSound(stack);
      PopKeepsSound(Attach(stack), indent);
    }
  }

  lemma {:induction false} CloseIsProper(stack: Stack)
    requires SoundStack(stack)
    ensures Close(stack).Ok? ==> ProperEntries(Close(stack).value)
    decreases |stack|
  {
    if |stack| > 1 && Top(stack).entries != [] {
      AttachKeepsSound(stack);
      CloseIsProper(Attach(stack));
    }
  }

  lemma PushKeepsSound(stack: Stack, f: Frame)
    requires SoundStack(stack) && f.entries == [] && Inside(Top(stack), f)
    ensures SoundStack(stack + [f])
  {
  }

  lemma AddKeepsSound(stack: Stack, e: Entry)
    requires SoundStack(stack) && PlainKey(e.key) && Proper(e.value) && !HasKey(Top(stack).entries, e.key)
    ensures SoundStack(AddEntry(stack, e))
  {
  }

  lemma PlaceKeepsSound(stack: Stack, indent: nat, key: string, value: string)
    requires SoundStack(stack) && Top(stack).indent < indent && PlainKey(key) && OneLine(value)
    ensures Place(stack, indent, key, value).Ok? ==> SoundStack(Place(stack, indent, key, value).value)
  {
    hide SoundStack, PlainKey, ParseScalar, HasKey, ProperEntries, Proper, AddEntry, OneLine;
    if Place(stack, indent, key, value).Ok? {
      if value == "" {
        PushKeepsSound(stack, Frame(indent, key, []));
      } else {
        ScalarsAreProper(value);
        AddKeepsSound(stack, Entry(key, ParseScalar(value).value));
      }
    }
  }

  lemma ScalarsAreProper(value: string)
    requires OneLine(value)
    ensures ParseScalar(value).Ok? ==> Proper(ParseScalar(value).value)
  {
  }

  /** A line without line breaks yields a plain key and a value on one line. */
  lemma ReadLineIsPlain(raw: string)
    requires '\n' !in raw && '\r' !in raw
    ensures ReadLine(raw).Mapping? ==> PlainKey(ReadLine(raw).key) && OneLine(ReadLine(raw).value)
  {
    hide Trim, TrimStart, TrimEnd, ValueText, IndexOf, Indent, PlainKey, OneLine, White;
    if ReadLine(raw).Mapping? {
      MappingPieces(raw);
      var trimmed := Trim(raw);
      var colon := IndexOf(trimmed, ':');
      KeyIsPlain(trimmed[..colon]);
      ValueStaysOnLine(trimmed[colon + 1..]);
    }
  }

  lemma MappingPieces(raw: string)
    requires '\n' !in raw && '\r' !in raw && ReadLine(raw).Mapping?
    ensures var trimmed := Trim(raw);
            var colon := IndexOf(trimmed, ':');
            && colon > 0 && OneLine(trimmed[..colon]) && OneLine(trimmed[colon + 1..])
            && !White(trimmed[0]) && trimmed[0] != '#'
  {
    hide Trim, TrimStart, TrimEnd, ValueText, IndexOf, Indent, White;
    TrimIsTrimmed(raw);
    TrimStarts(raw);
    PiecesStayOnLine(raw, Trim(raw));
  }

  lemma {:induction false} TrimStarts(raw: string)
    ensures Trim(raw) != "" ==> TrimStart(raw) != "" && Trim(raw)[0] == TrimStart(raw)[0] && !White(Trim(raw)[0])
  {
  }

  lemma PiecesStayOnLine(raw: string, trimmed: string)
    requires OneLine(raw) && forall c :: c in trimmed ==> c in raw
    ensures forall i :: 0 <= i <= |trimmed| ==> OneLine(trimmed[..i]) && OneLine(trimmed[i..])
  {
  }

  lemma ValueStaysOnLine(after: string)
    requires OneLine(after)
    ensures OneLine(ValueText(after))
  {
  }

  lemma KeyIsPlain(left: string)
    requires left != "" && !White(left[0]) && left[0] != '#' && ':' !in left && OneLine(left)
    ensures PlainKey(Trim(left))
  {
    TrimIsTrimmed(left);
    KeyKeepsItsStart(left);
    hide Trim, White;
  }

  lemma KeyKeepsItsStart(left: string)
    requires left != "" && !White(left[0])
    ensures Trim(left) != "" && Trim(left)[0] == left[0]
  {
    assert TrimStart(left) == left;
    NotAllTrimmed(left);
  }

  lemma {:induction false} NotAllTrimmed(s: string)
    requires s != "" && !White(s[0])
    ensures TrimEnd(s) != ""
    decreases |s|
  {
    if |s| > 1 && White(s[|s| - 1]) {
      NotAllTrimmed(s[..|s| - 1]);
    }
  }

  lemma StepKeepsSound(stack: Stack, raw: string)
    requires SoundStack(stack) && '\n' !in raw && '\r' !in raw
    ensures Step(stack, raw).Ok? ==> SoundStack(Step(stack, raw).value)
    ensures Step(stack, raw) != Err(InvalidIndentation) && Step(stack, raw) != Err(InvalidKey)
  {
    ReadLineIsPlain(raw);
    MalformedErrors(raw);
    hide SoundStack, ReadLine, PlainKey, OneLine, PopTo, Place, Top;
    if ReadLine(raw).Mapping? {
      var line := ReadLine(raw);
      PopKeepsSound(stack, line.indent);
      PopErrors(stack, line.indent);
      if PopTo(stack, line.indent).Ok? {
        PlaceKeepsSound(PopTo(stack, line.indent).value, line.indent, line.key, line.value);
        PlaceErrors(PopTo(stack, line.indent).value, line.indent, line.key, line.value);
      }
    }
  }

  lemma PlaceErrors(stack: Stack, indent: nat, key: string, value: string)
    requires Top(stack).indent < indent && PlainKey(key)
    ensures Place(stack, indent, key, value) != Err(InvalidIndentation) && Place(stack, indent, key, value) != Err(InvalidKey)
  {
  }

  lemma MalformedErrors(raw: string)
    ensures ReadLine(raw).Malformed? ==> ReadLine(raw).error == TabsNotSupported || ReadLine(raw).error == InvalidMapping
  {
  }

  lemma {:induction false} PopErrors(stack: Stack, indent: int)
    ensures PopTo(stack, indent).Err? ==> PopTo(stack, indent).error == EmptyObject
    decreases |stack|
  {
    if |stack| > 1 && indent <= Top(stack).indent && Top(stack).entries != [] {
      PopErrors(Attach(stack), indent);
    }
  }

  lemma {:induction false} RunKeepsSound(stack: Stack, lines: seq<string>)
    requires SoundStack(stack) && forall i :: 0 <= i < |lines| ==> '\n' !in lines[i] && '\r' !in lines[i]
    ensures Run(stack, lines).Ok? ==> SoundStack(Run(stack, lines).value)
    ensures Run(stack, lines) != Err(InvalidIndentation) && Run(stack, lines) != Err(InvalidKey)
    decreases |lines|
  {
    hide Step, SoundStack;
    if lines != [] {
      StepKeepsSound(stack, lines[0]);
      if Step(stack, lines[0]).Ok? {
        RunKeepsSound(Step(stack, lines[0]).value, lines[1..]);
      }
    }
  }

  lemma {:induction false} SplitLines(s: string)
    requires '\r' !in s
    ensures forall i :: 0 <= i < |Split(s)| ==> '\n' !in Split(s)[i] && '\r' !in Split(s)[i]
    decreases |s|
  {
    if s != "" {
      SplitLines(s[1..]);
      assert s[0] in s;
    }
  }

  lemma {:induction false} UnixTextHasNoReturns(s: string)
    ensures '\r' !in UnixText(s)
    decreases |s|
  {
    if s != "" {
      if s[0] != '\r' || |s| == 1 || s[1] != '\n' {
        UnixTextHasNoReturns(s[1..]);
      } else {
        UnixTextHasNoReturns(s[2..]);
      }
    }
  }

  /** Whatever is parsed is proper: no empty nested mapping, no repeated key at any level; and two of
      the parser's error exits are never taken. */
  lemma ParseIsProper(source: string)
    ensures Parse(source).Ok? ==> ProperEntries(Parse(source).value)
    ensures Parse(source) != Err(InvalidIndentation) && Parse(source) != Err(InvalidKey)
  {
    hide SoundStack, Run, Split, UnixText, ProperEntries;
    UnixTextHasNoReturns(source);
    SplitLines(UnixText(source));
    RootIsSound();
    RunKeepsSound([ROOT], Split(UnixText(source)));
    var end := Run([ROOT], Split(UnixText(source)));
    if end.Ok? {
      CloseIsProper(end.value);
      CloseErrors(end.value);
    }
  }

  lemma RootIsSound()
    ensures SoundStack([ROOT])
  {
  }

  lemma {:induction false} CloseErrors(stack: Stack)
    ensures Close(stack).Err? ==> Close(stack).error == EmptyObject
    decreases |stack|
  {
    if |stack| > 1 && Top(stack).entries != [] {
      CloseErrors(Attach(stack));
    }
  }
}
