/** Trees, the documents that write them down, and what the parser gives back: which trees can be parsed
    at all, which strings survive being written, and what the generated configuration file comes back as. */
module YamlTrees {
  import opened Wrappers
  import opened YamlText
  import opened YamlParser
  import opened YamlRoundTrip

  /** A string as a leaf: on its own where it is plain, between double quotes where it is not. */
  function WriteText(s: string): string {
    if PlainScalar(s) then s else "\"" + s + "\""
  }

  function Write(entries: seq<Entry>): (fields: seq<Field>)
    ensures |fields| == |entries|
    ensures forall i :: 0 <= i < |entries| ==> fields[i].key == entries[i].key
    decreases entries, 0
  {
    if entries == [] then [] else [Field(entries[0].key, WriteValue(entries[0].value))] + Write(entries[1..])
  }

  function WriteValue(v: Node): Doc
    decreases v, 1
  {
    match v
    case Map(entries) => Block(Write(entries))
    case Text(text) => Leaf(WriteText(text))
    case Flag(flag) => Leaf(if flag then "true" else "false")
    case Nothing => Leaf("null")
    case Number(literal) => Leaf(literal)
  }

  // ----- leaves -----

  /** Between double quotes, every string that stays on its line is read back. */
  lemma QuotedReads(s: string)
    requires OneLine(s)
    ensures GoodLeaf("\"" + s + "\"") && ReadScalar("\"" + s + "\"") == Ok(Text(s))
  {
    var raw := "\"" + s + "\"";
    TrimIsTrimmed(raw);
    hide Trim;
    assert Inner(raw) == s;
  }

  lemma TextReads(s: string)
    requires OneLine(s)
    ensures GoodLeaf(WriteText(s)) && ReadScalar(WriteText(s)) == Ok(Text(s))
  {
    QuotedReads(s);
    PlainExactly(s);
    hide ValueText, NumberLike, ParseScalar, Quoted, ReadScalar, Reserved;
  }

  /** The characters of numbers and of the words for truth values and null. */
  predicate Wordy(s: string) {
    s != "" && forall i :: 0 <= i < |s| ==> ('0' <= s[i] <= '9' || s[i] == '-' || s[i] == '.' || 'a' <= s[i] <= 'z')
  }

  lemma WordyIsLeaf(s: string)
    requires Wordy(s)
    ensures Trimmed(s) && OneLine(s) && ValueText(s) == s && !Quoted(s)
    ensures ParseScalar(s).Ok? ==> GoodLeaf(s) && ReadScalar(s) == ParseScalar(s)
  {
    TrimIsTrimmed(s);
    hide Trim, ParseScalar;
  }

  lemma {:induction false} DigitsAreWordy(s: string)
    requires Digits(s)
    ensures Wordy(s) && s[0] <= '9'
  {
    assert '0' <= s[0] <= '9';
  }

  lemma WordyJoins(a: string, b: string)
    requires Wordy(a) && Wordy(b)
    ensures Wordy(a + "." + b) && Wordy("-" + a)
  {
  }

  lemma Pointed(u: string, k: nat)
    requires k < |u| && u[k] == '.' && u[..k] != ""
    ensures u == u[..k] + "." + u[k + 1..] && u[0] == u[..k][0]
  {
  }

  lemma NumberIsWordy(s: string)
    requires NumberLike(s)
    ensures Wordy(s) && s[0] <= '9'
  {
    hide Wordy, Digits;
    var u := if s != "" && s[0] == '-' then s[1..] else s;
    if Digits(u) {
      DigitsAreWordy(u);
      WordyJoins(u, u);
    } else {
      var k :| 0 <= k < |u| && u[k] == '.' && Digits(u[..k]) && Digits(u[k + 1..]);
      DigitsAreWordy(u[..k]);
      DigitsAreWordy(u[k + 1..]);
      WordyJoins(u[..k], u[k + 1..]);
      Pointed(u, k);
      WordyJoins(u, u);
    }
    SignedOrNot(s, u);
  }

  lemma SignedOrNot(s: string, u: string)
    requires u == if s != "" && s[0] == '-' then s[1..] else s
    ensures s == u || (s == "-" + u && s[0] == '-')
  {
  }

  lemma NumberReads(s: string)
    requires NumberLike(s)
    ensures GoodLeaf(s) && ReadScalar(s) == Ok(Number(s))
  {
    hide NumberLike, Wordy, GoodLeaf, ReadScalar, Quoted;
    NumberIsWordy(s);
    WordyIsLeaf(s);
  }

  lemma WordReads(s: string, v: Node)
    requires Wordy(s) && ParseScalar(s) == Ok(v)
    ensures GoodLeaf(s) && ReadScalar(s) == Ok(v)
  {
    hide *;
    WordyIsLeaf(s);
  }

  lemma WordsRead()
    ensures GoodLeaf("true") && ReadScalar("true") == Ok(Flag(true))
    ensures GoodLeaf("false") && ReadScalar("false") == Ok(Flag(false))
    ensures GoodLeaf("null") && ReadScalar("null") == Ok(Nothing)
  {
    hide NumberLike, GoodLeaf, ReadScalar;
    WordReads("true", Flag(true));
    WordReads("false", Flag(false));
    WordReads("null", Nothing);
  }

  // ----- trees -----

  lemma {:induction false} WriteIsGood(entries: seq<Entry>)
    requires ProperEntries(entries)
    ensures GoodFields(Write(entries)) && Meaning(Write(entries)) == entries
    decreases entries, 0
  {
    hide PlainKey;
    if entries != [] {
      var e, rest := entries[0], entries[1..];
      WriteValueIsGood(e);
      WriteIsGood(rest);
      GoodCons(Field(e.key, WriteValue(e.value)), Write(rest));
    }
  }

  lemma {:induction false} GoodCons(f: Field, rest: seq<Field>)
    requires GoodField(f) && GoodFields(rest) && forall i :: 0 <= i < |rest| ==> rest[i].key != f.key
    ensures GoodFields([f] + rest) && Meaning([f] + rest) == [FieldMeaning(f)] + Meaning(rest)
  {
    hide GoodField, FieldMeaning;
    assert ([f] + rest)[1..] == rest;
  }

  lemma {:induction false} WriteValueIsGood(e: Entry)
    requires PlainKey(e.key) && Proper(e.value)
    ensures GoodField(Field(e.key, WriteValue(e.value)))
    ensures FieldMeaning(Field(e.key, WriteValue(e.value))) == e
    decreases e, 1
  {
    hide PlainKey, GoodLeaf, ReadScalar, NumberLike, OneLine, WriteText, GoodFields, Meaning;
    match e.value
    case Map(entries) => WriteIsGood(entries);
    case Text(text) => TextReads(text);
    case Number(literal) => NumberReads(literal);
    case _ => WordsRead();
  }

  /** Every proper tree survives printing and parsing, whatever the indentation step. */
  lemma {:induction false} TreeRoundTrip(entries: seq<Entry>, step: nat)
    requires ProperEntries(entries) && step > 0
    ensures Parse(Print(Write(entries), step)) == Ok(entries)
  {
    WriteIsGood(entries);
    PrintedParses(Write(entries), step);
  }

  /** The trees the parser can give are exactly the proper ones. */
  lemma {:induction false} ParsableExactly(entries: seq<Entry>)
    ensures ProperEntries(entries) <==> exists source :: Parse(source) == Ok(entries)
  {
    hide ProperEntries, Parse, Print;
    if ProperEntries(entries) {
      TreeRoundTrip(entries, 2);
    }
    if source :| Parse(source) == Ok(entries) {
      ParseIsProper(source);
    }
  }
}
