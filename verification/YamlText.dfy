/** The text side of the configuration parser: white space, lines, comments and scalars. */
module YamlText {
  import opened Wrappers

  datatype YamlError = TabsNotSupported | InvalidMapping | EmptyObject | InvalidIndentation | InvalidKey | DuplicateKey
    | UnsupportedScalar

  /** A parsed value. A number is carried by its text. */
  datatype Node = Map(entries: seq<Entry>) | Text(text: string) | Flag(flag: bool) | Nothing | Number(literal: string)

  datatype Entry = Entry(key: string, value: Node)

  // ----- white space -----

  predicate White(c: char) {
    var u := c as int;
    || 9 <= u <= 13 || u == 32 || u == 0xA0 || u == 0x1680 || 0x2000 <= u <= 0x200A
    || u == 0x2028 || u == 0x2029 || u == 0x202F || u == 0x205F || u == 0x3000 || u == 0xFEFF
  }

  function TrimStart(s: string): (r: string)
    ensures |r| <= |s| && r == s[|s| - |r|..]
    ensures r != "" ==> !White(r[0])
    decreases |s|
  {
    if s != "" && White(s[0]) then TrimStart(s[1..]) else s
  }

  function TrimEnd(s: string): (r: string)
    ensures |r| <= |s| && r == s[..|r|]
    ensures r != "" ==> !White(r[|r| - 1])
    decreases |s|
  {
    if s != "" && White(s[|s| - 1]) then TrimEnd(s[..|s| - 1]) else s
  }

  function Trim(s: string): (r: string)
    ensures |r| <= |s|
  {
    TrimEnd(TrimStart(s))
  }

  /** Neither end is white space. */
  predicate Trimmed(s: string) {
    s == "" || (!White(s[0]) && !White(s[|s| - 1]))
  }

  lemma TrimIsTrimmed(s: string)
    ensures Trimmed(Trim(s))
    ensures |Trim(s)| == |s| ==> Trim(s) == s
    ensures Trimmed(s) ==> Trim(s) == s
    ensures forall c :: c in Trim(s) ==> c in s
  {
  }

  function Spaces(n: nat): (r: string)
    ensures |r| == n && forall i :: 0 <= i < n ==> r[i] == ' '
  {
    seq(n, _ => ' ')
  }

  function Indent(s: string): (n: nat)
    ensures n <= |s|
    decreases |s|
  {
    if s != "" && s[0] == ' ' then 1 + Indent(s[1..]) else 0
  }

  lemma {:induction false} PaddedLine(n: nat, s: string)
    requires s != "" && !White(s[0])
    ensures Indent(Spaces(n) + s) == n && TrimStart(Spaces(n) + s) == s
  {
    if n == 0 {
      assert Spaces(n) + s == s;
    } else {
      assert (Spaces(n) + s)[1..] == Spaces(n - 1) + s;
      PaddedLine(n - 1, s);
    }
  }

  // ----- searching -----

  function IndexOf(s: string, c: char): (i: int)
    ensures -1 <= i < |s|
    ensures i >= 0 ==> s[i] == c && c !in s[..i]
    ensures i == -1 ==> c !in s
    decreases |s|
  {
    if s == "" then -1
    else
      assert s == [s[0]] + s[1..];
      if s[0] == c then 0
      else
        var i := IndexOf(s[1..], c);
        if i == -1 then -1
        else
          assert s[..i + 1] == [s[0]] + s[1..][..i];
          i + 1
  }

  /** Where the first `ab` stands, or -1. */
  function IndexOfPair(s: string, a: char, b: char): (i: int)
    ensures -1 <= i < |s|
    ensures i >= 0 ==> i + 1 < |s| && s[i] == a && s[i + 1] == b
    ensures i == -1 ==> forall j :: 0 <= j < |s| - 1 ==> !(s[j] == a && s[j + 1] == b)
    decreases |s|
  {
    if |s| < 2 then -1
    else if s[0] == a && s[1] == b then 0
    else
      var i := IndexOfPair(s[1..], a, b);
      assert forall j :: 0 < j < |s| - 1 ==> s[j] == s[1..][j - 1] && s[j + 1] == s[1..][j];
      if i == -1 then -1 else i + 1
  }

  lemma {:induction false} FirstColon(key: string, rest: string)
    requires ':' !in key
    ensures IndexOf(key + ":" + rest, ':') == |key|
    decreases |key|
  {
    if key != "" {
      assert (key + ":" + rest)[1..] == key[1..] + ":" + rest;
      FirstColon(key[1..], rest);
    }
  }

  // ----- comments and scalars -----

  predicate OpensQuote(s: string) {
    s != "" && (s[0] == '\"' || s[0] == '\'')
  }

  function StripComment(s: string): (r: string)
    ensures |r| <= |s|
    ensures forall c :: c in r ==> c in s
  {
    if OpensQuote(s) then s
    else
      var hash := IndexOfPair(s, ' ', '#');
      if hash == -1 then s else TrimEnd(s[..hash])
  }

  predicate Quoted(s: string) {
    s != "" && (s[0] == '\"' || s[0] == '\'') && s[|s| - 1] == s[0]
  }

  predicate Digits(s: string) {
    s != "" && forall i :: 0 <= i < |s| ==> '0' <= s[i] <= '9'
  }

  predicate Unsigned(u: string) {
    Digits(u) || exists i :: 0 <= i < |u| && u[i] == '.' && Digits(u[..i]) && Digits(u[i + 1..])
  }

  predicate NumberLike(s: string) {
    Unsigned(if s != "" && s[0] == '-' then s[1..] else s)
  }

  predicate Reserved(s: string) {
    s == "true" || s == "false" || s == "null" || s == "~"
  }

  function Inner(s: string): string {
    if |s| >= 2 then s[1..|s| - 1] else ""
  }

  function ParseScalar(s: string): Result<Node, YamlError> {
    if Quoted(s) then Ok(Text(Inner(s)))
    else if s == "true" then Ok(Flag(true))
    else if s == "false" then Ok(Flag(false))
    else if s == "null" || s == "~" then Ok(Nothing)
    else if NumberLike(s) then Ok(Number(s))
    else if (s != "" && (s[0] == '[' || s[0] == '{')) || IndexOfPair(s, ':', ' ') != -1 then Err(UnsupportedScalar)
    else Ok(Text(s))
  }

  /** What the text after a key's colon stands for; the empty text opens a nested mapping instead. */
  function ValueText(after: string): (r: string)
    ensures forall c :: c in r ==> c in after
  {
    TrimIsTrimmed(after);
    StripComment(Trim(after))
  }

  function ReadScalar(after: string): Result<Node, YamlError> {
    ParseScalar(ValueText(after))
  }

  /** The strings that can be written without quotes. */
  predicate PlainScalar(s: string) {
    && s != "" && Trimmed(s) && !Quoted(s) && !Reserved(s) && !NumberLike(s)
    && s[0] != '[' && s[0] != '{'
    && (OpensQuote(s) || IndexOfPair(s, ' ', '#') == -1)
    && IndexOfPair(s, ':', ' ') == -1
  }

  /** Written without quotes, a string is read back exactly when it is plain. */
  lemma PlainExactly(s: string)
    ensures (ValueText(s) != "" && ReadScalar(s) == Ok(Text(s))) <==> PlainScalar(s)
  {
    hide Trim, NumberLike, IndexOfPair, ParseScalar, StripComment, Reserved, Trimmed, Quoted, OpensQuote;
    TrimIsTrimmed(s);
    CommentFree(s);
    TextsRead(s);
    TextsRead(ValueText(s));
  }

  /** What is left of a text without its comment is the text itself, or shorter. */
  lemma {:induction false} CommentFree(s: string)
    ensures StripComment(s) == s <==> OpensQuote(s) || IndexOfPair(s, ' ', '#') == -1
    ensures StripComment(s) == s || |StripComment(s)| < |s|
  {
  }

  /** Reading never makes a text longer, and leaves it as it is only when it is nothing else. */
  lemma {:induction false} TextsRead(v: string)
    ensures ParseScalar(v) == Ok(Text(v)) <==>
            (!Quoted(v) && !Reserved(v) && !NumberLike(v) && (v == "" || (v[0] != '[' && v[0] != '{')) &&
             IndexOfPair(v, ':', ' ') == -1)
    ensures forall s :: ParseScalar(v) == Ok(Text(s)) ==> s == v || |s| < |v|
  {
  }
}
