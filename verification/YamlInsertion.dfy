/** Blank lines and comment lines: wherever they are inserted into a file, they change nothing. */
module YamlInsertion {
  import opened Wrappers
  import opened YamlText
  import opened YamlParser
  import opened YamlRoundTrip

  /** The lines of a source text that say something. */
  function Telling(lines: seq<string>): seq<string> {
    if lines == [] then []
    else if Ignored(lines[0]) then Telling(lines[1..]) else [lines[0]] + Telling(lines[1..])
  }

  function Content(source: string): seq<string> {
    Telling(Split(UnixText(source)))
  }

  lemma {:induction false} TellingJoins(a: seq<string>, b: seq<string>)
    ensures Telling(a + b) == Telling(a) + Telling(b)
    decreases |a|
  {
    hide Ignored;
    if a == [] {
      assert a + b == b;
    } else {
      assert (a + b)[1..] == a[1..] + b;
      TellingJoins(a[1..], b);
    }
  }

  lemma {:induction false} RunTelling(stack: Stack, lines: seq<string>)
    ensures Run(stack, lines) == Run(stack, Telling(lines))
    decreases |lines|
  {
    hide Step, Ignored;
    if lines != [] {
      var raw, rest := lines[0], lines[1..];
      if Ignored(raw) {
        IgnoredStep(stack, raw);
        RunTelling(stack, rest);
      } else {
        assert ([raw] + Telling(rest))[1..] == Telling(rest);
        if Step(stack, raw).Ok? {
          RunTelling(Step(stack, raw).value, rest);
        }
      }
    }
  }

  lemma IgnoredStep(stack: Stack, c: string)
    requires Ignored(c)
    ensures Step(stack, c) == Ok(stack)
  {
    hide Ignored;
  }

  /** What a text parses to depends on its telling lines alone. */
  lemma ParseByContent(a: string, b: string)
    requires Content(a) == Content(b)
    ensures Parse(a) == Parse(b)
  {
    hide *;
    ContentUnfolds(a);
    ContentUnfolds(b);
    ParseUnfolds(a);
    ParseUnfolds(b);
    RunTelling([ROOT], Split(UnixText(a)));
    RunTelling([ROOT], Split(UnixText(b)));
  }

  lemma {:induction false} ContentUnfolds(source: string)
    ensures Content(source) == Telling(Split(UnixText(source)))
  {
  }

  // ----- line breaks -----

  /** The three ways to end a line. */
  predicate IsBreak(eol: string) {
    eol == "\n" || eol == "\r" || eol == "\r\n"
  }

  /** The place after this text is the beginning of a line. */
  predicate AtLineStart(before: string) {
    before == "" || before[|before| - 1] == '\n' || before[|before| - 1] == '\r'
  }

  /** The breaks are read the same on either side of a place that is not inside a pair. */
  lemma {:induction false} UnixJoins(a: string, t: string)
    requires a != "" && a[|a| - 1] == '\r' && t != "" ==> t[0] != '\n'
    ensures UnixText(a + t) == UnixText(a) + UnixText(t)
    decreases |a|
  {
    if a == "" {
      assert a + t == t;
    } else {
      var s := a + t;
      var n := if a[0] == '\r' && |a| > 1 && a[1] == '\n' then 2 else 1;
      assert s[n..] == a[n..] + t && s[0] == a[0];
      assert a[0] == '\r' && n == 1 && |s| > 1 ==> s[1] != '\n';
      assert n == 2 ==> s[1] == '\n';
      UnixJoins(a[n..], t);
    }
  }

  lemma {:induction false} UnixAtReturn(a: string, b: string)
    requires b == "" || b[0] != '\n'
    ensures UnixText(a + "\r" + b) == UnixText(a) + "\n" + UnixText(b)
  {
    assert a + "\r" + b == a + ("\r" + b) && ("\r" + b)[1..] == b;
    UnixJoins(a, "\r" + b);
  }

  lemma {:induction false} UnixAtPair(a: string, b: string)
    ensures UnixText(a + "\r\n" + b) == UnixText(a) + "\n" + UnixText(b)
  {
    assert a + "\r\n" + b == a + ("\r\n" + b) && ("\r\n" + b)[2..] == b;
    UnixJoins(a, "\r\n" + b);
  }

  lemma {:induction false} UnixAtNewline(a: string, b: string)
    requires a == "" || a[|a| - 1] != '\r'
    ensures UnixText(a + "\n" + b) == UnixText(a) + "\n" + UnixText(b)
  {
    assert a + "\n" + b == a + ("\n" + b) && ("\n" + b)[1..] == b;
    UnixJoins(a, "\n" + b);
  }

  lemma {:induction false} ContentAtBreak(source: string, a: string, b: string)
    requires UnixText(source) == UnixText(a) + "\n" + UnixText(b)
    ensures Content(source) == Content(a) + Content(b)
  {
    hide *;
    ContentUnfolds(source);
    ContentUnfolds(a);
    ContentUnfolds(b);
    SplitJoins(UnixText(a), UnixText(b));
    TellingJoins(Split(UnixText(a)), Split(UnixText(b)));
  }

  lemma NothingTold()
    ensures Content("") == []
  {
    assert Telling([""]) == Telling([""][1..]);
  }

  // ----- joining at the beginning of a line -----

  lemma JoinsAfterNewline(a: string, x: string)
    ensures Content(a + "\n" + x) == Content(a + "\n") + Content(x)
  {
    hide Content;
    NothingTold();
    if a != "" && a[|a| - 1] == '\r' {
      var p := a[..|a| - 1];
      assert a + "\n" + x == p + "\r\n" + x && a + "\n" == p + "\r\n" + "";
      UnixAtPair(p, x);
      UnixAtPair(p, "");
      ContentAtBreak(a + "\n" + x, p, x);
      ContentAtBreak(a + "\n", p, "");
    } else {
      assert a + "\n" == a + "\n" + "";
      UnixAtNewline(a, x);
      UnixAtNewline(a, "");
      ContentAtBreak(a + "\n" + x, a, x);
      ContentAtBreak(a + "\n", a, "");
    }
  }

  /** Also where the next text begins with a newline that belongs to this return. */
  lemma JoinsAfterReturn(a: string, x: string)
    ensures Content(a + "\r" + x) == Content(a + "\r") + Content(x)
  {
    hide *;
    NothingTold();
    assert a + "\r" == a + "\r" + "";
    UnixAtReturn(a, "");
    ContentAtBreak(a + "\r", a, "");
    if x != "" && x[0] == '\n' {
      var rest := x[1..];
      assert a + "\r" + x == a + "\r\n" + rest && x == "" + "\n" + rest;
      UnixAtPair(a, rest);
      UnixAtNewline("", rest);
      ContentAtBreak(a + "\r" + x, a, rest);
      ContentAtBreak(x, "", rest);
    } else {
      UnixAtReturn(a, x);
      ContentAtBreak(a + "\r" + x, a, x);
    }
  }

  lemma JoinsAtLineStart(before: string, x: string)
    requires AtLineStart(before)
    ensures Content(before + x) == Content(before) + Content(x)
  {
    hide Content;
    if before == "" {
      NothingTold();
      assert before + x == x;
    } else {
      var a := before[..|before| - 1];
      if before[|before| - 1] == '\n' {
        assert before == a + "\n" && before + x == a + "\n" + x;
        JoinsAfterNewline(a, x);
      } else {
        assert before == a + "\r" && before + x == a + "\r" + x;
        JoinsAfterReturn(a, x);
      }
    }
  }

  /** Ending the last line, where the text does not yet, adds nothing. */
  lemma BreakAddsNothing(a: string, eol: string)
    requires IsBreak(eol)
    ensures AtLineStart(a + eol) && Content(a + eol) == Content(a)
  {
    hide Content;
    NothingTold();
    assert a + eol == a + eol + "";
    if eol == "\r" {
      UnixAtReturn(a, "");
      ContentAtBreak(a + eol, a, "");
    } else if eol == "\r\n" {
      UnixAtPair(a, "");
      ContentAtBreak(a + eol, a, "");
    } else if a != "" && a[|a| - 1] == '\r' {
      var p := a[..|a| - 1];
      assert a == p + "\r" + "" && a + eol == p + "\r\n" + "";
      UnixAtReturn(p, "");
      UnixAtPair(p, "");
      ContentAtBreak(a, p, "");
      ContentAtBreak(a + eol, p, "");
    } else {
      UnixAtNewline(a, "");
      ContentAtBreak(a + eol, a, "");
    }
  }

  lemma IgnoredTellsNothing(c: string)
    requires Ignored(c) && '\n' !in c && '\r' !in c
    ensures Content(c) == []
  {
    hide Ignored;
    UnixTextKeeps(c);
    SplitOneLine(c);
    assert Telling([c]) == Telling([c][1..]);
  }

  // ----- the results -----

  /** The second text is the first with one line added: at the beginning of any line, with any line
      break after it, or after the last line, with a break before it where the last line has none. */
  ghost predicate Inserted(c: string, source: string, longer: string) {
    || (exists before, after, eol :: AtLineStart(before) && IsBreak(eol) && source == before + after && longer == before + (c + eol) + after)
    || (AtLineStart(source) && longer == source + c)
    || (exists eol :: IsBreak(eol) && longer == source + eol + c)
  }

  /** A blank line or a comment line, inserted anywhere in a file, changes nothing. */
  lemma IgnoredLinesChangeNothing(c: string, source: string, longer: string)
    requires Ignored(c) && '\n' !in c && '\r' !in c && Inserted(c, source, longer)
    ensures Parse(longer) == Parse(source)
  {
    hide Content, Ignored, Parse;
    IgnoredTellsNothing(c);
    if AtLineStart(source) && longer == source + c {
      JoinsAtLineStart(source, c);
    } else if eol :| IsBreak(eol) && longer == source + eol + c {
      BreakAddsNothing(source, eol);
      JoinsAtLineStart(source + eol, c);
    } else {
      var before, after, eol :| AtLineStart(before) && IsBreak(eol) && source == before + after && longer == before + (c + eol) + after;
      BreakAddsNothing(c, eol);
      JoinsAtLineStart(before, after);
      JoinsAtLineStart(before, c + eol + after);
      JoinsAtLineStart(c + eol, after);
      assert longer == before + (c + eol + after);
    }
    ParseByContent(longer, source);
  }

  /** So do any number of them, one after another, each anywhere. */
  lemma {:induction false} AnyNumberChangeNothing(comments: seq<string>, sources: seq<string>)
    requires |sources| == |comments| + 1
    requires forall i :: 0 <= i < |comments| ==> Ignored(comments[i]) && '\n' !in comments[i] && '\r' !in comments[i]
    requires forall i :: 0 <= i < |comments| ==> Inserted(comments[i], sources[i], sources[i + 1])
    ensures Parse(sources[|comments|]) == Parse(sources[0])
    decreases |comments|
  {
    hide Parse, Inserted, Ignored;
    if comments != [] {
      var n := |comments| - 1;
      IgnoredLinesChangeNothing(comments[n], sources[n], sources[n + 1]);
      AnyNumberChangeNothing(comments[..n], sources[..n + 1]);
    }
  }
}
