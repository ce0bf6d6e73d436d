/** Paths into an envelope, and the identifiers derived from them for updates that carry none. */
module SyntheticIds {

  const NUL: char := '\0'

  datatype Kind =
    | MessageKind | StatusKind | CallConnect | CallTerminate | CallStatus | UserPreferences | SystemKind | ChatOpened
    | GroupLifecycle | GroupParticipants | GroupSettings | GroupStatus | Account | Unknown

  function KindName(k: Kind): string {
    match k
    case MessageKind => "message"
    case StatusKind => "status"
    case CallConnect => "callConnect"
    case CallTerminate => "callTerminate"
    case CallStatus => "callStatus"
    case UserPreferences => "userPreferences"
    case SystemKind => "system"
    case ChatOpened => "chatOpened"
    case GroupLifecycle => "groupLifecycle"
    case GroupParticipants => "groupParticipants"
    case GroupSettings => "groupSettings"
    case GroupStatus => "groupStatus"
    case Account => "account"
    case Unknown => "unknown"
  }

  lemma KindNamesDiffer(a: Kind, b: Kind)
    requires KindName(a) == KindName(b)
    ensures a == b
  {
  }

  lemma KindNameHasNoNul(k: Kind)
    ensures NUL !in KindName(k)
  {
  }

  // ----- decimal numerals -----

  function Digit(d: nat): char
    requires d < 10
  {
    ('0' as int + d) as char
  }

  function Decimal(n: nat): (s: string)
    ensures s != [] && (|s| == 1 <==> n < 10)
    ensures forall i :: 0 <= i < |s| ==> '0' <= s[i] <= '9'
  {
    if n < 10 then [Digit(n)] else Decimal(n / 10) + [Digit(n % 10)]
  }

  lemma {:induction false} DecimalInjective(a: nat, b: nat)
    requires Decimal(a) == Decimal(b)
    ensures a == b
    decreases a
  {
    var s := Decimal(a);
    assert s[|s| - 1] == Digit(a % 10) == Digit(b % 10);
    if a >= 10 {
      assert Decimal(a / 10) == s[..|s| - 1] == Decimal(b / 10);
      DecimalInjective(a / 10, b / 10);
    }
  }

  lemma {:induction false} DecimalDigits(n: nat)
    ensures forall c :: c in Decimal(n) ==> '0' <= c <= '9'
  {
    if n >= 10 {
      DecimalDigits(n / 10);
    }
  }

  /** The number a numeral stands for. */
  function ValueOf(s: string): int {
    if s == [] then 0 else 10 * ValueOf(s[..|s| - 1]) + (s[|s| - 1] as int - '0' as int)
  }

  /** A number is written in decimal, without leading zeros. */
  lemma {:induction false} DecimalReads(n: nat)
    ensures ValueOf(Decimal(n)) == n
    ensures (forall c :: c in Decimal(n) ==> '0' <= c <= '9') && (n > 0 ==> Decimal(n)[0] != '0')
  {
    DecimalDigits(n);
    if n >= 10 {
      DecimalReads(n / 10);
      assert Decimal(n)[..|Decimal(n)| - 1] == Decimal(n / 10);
    }
  }

  // ----- paths -----

  function Index(i: nat): string {
    "[" + Decimal(i) + "]"
  }

  function EntryPath(e: nat): string {
    "entry" + Index(e)
  }

  function ChangePath(e: nat, c: nat): string {
    EntryPath(e) + ".changes" + Index(c)
  }

  predicate IdChar(c: char) {
    'A' <= c <= 'Z' || 'a' <= c <= 'z' || '0' <= c <= '9' || c == '_' || c == '-'
  }

  predicate PathChar(c: char) {
    IdChar(c) || c == '[' || c == ']' || c == '.'
  }

  function SafeId(s: string): (r: string)
    ensures |r| == |s| && forall c :: c in r ==> IdChar(c)
  {
    if s == [] then [] else [if IdChar(s[0]) then s[0] else '_'] + SafeId(s[1..])
  }

  function SafePath(s: string): (r: string)
    ensures |r| == |s| && forall c :: c in r ==> PathChar(c)
  {
    if s == [] then [] else [if PathChar(s[0]) then s[0] else '_'] + SafePath(s[1..])
  }

  function SyntheticId(kind: Kind, wabaId: string, field: string, path: string): string {
    KindName(kind) + ":" + SafeId(wabaId) + ":" + SafeId(field) + ":" + SafePath(path)
  }

  /** What a synthetic id says: the kind, the account and the field with every unusual character replaced,
      and the path as it is. */
  lemma {:induction false} SyntheticIdSays(kind: Kind, wabaId: string, field: string, e: nat, c: nat)
    ensures SyntheticId(kind, wabaId, field, ChangePath(e, c)) ==
            KindName(kind) + ":" + (SafeId(wabaId) + ":" + (SafeId(field) + ":" + ChangePath(e, c)))
    ensures ChangePath(e, c) == "entry[" + (Decimal(e) + "]" + (".changes[" + (Decimal(c) + "]" + "")))
    ensures |SafeId(wabaId)| == |wabaId|
    ensures forall i :: 0 <= i < |wabaId| ==>
              var x := wabaId[i];
              SafeId(wabaId)[i] == if 'A' <= x <= 'Z' || 'a' <= x <= 'z' || '0' <= x <= '9' || x == '_' || x == '-' then x else '_'
  {
    ChangePathIsSafe(e, c);
    SafeIdExactly(wabaId);
    hide SafeId, Decimal, SafePath, ChangePath, SyntheticId, KindName;
    SyntheticIdUnfolds(kind, wabaId, field, ChangePath(e, c));
    ChangePathUnfolds(e, c);
  }

  lemma {:induction false} SafeIdExactly(s: string)
    ensures forall i :: 0 <= i < |s| ==> SafeId(s)[i] == if IdChar(s[i]) then s[i] else '_'
  {
    hide IdChar;
    if s != [] {
      SafeIdExactly(s[1..]);
    }
  }

  // ----- injectivity -----

  lemma {:induction false} SafePathKeepsPaths(s: string)
    requires forall c :: c in s ==> PathChar(c)
    ensures SafePath(s) == s
  {
    if s != "" {
      SafePathKeepsPaths(s[1..]);
    }
  }

  lemma ChangePathIsSafe(e: nat, c: nat)
    ensures SafePath(ChangePath(e, c)) == ChangePath(e, c)
  {
    DecimalDigits(e);
    DecimalDigits(c);
    assert forall x :: x in "entry" ==> PathChar(x);
    assert forall x :: x in ".changes" ==> PathChar(x);
    SafePathKeepsPaths(ChangePath(e, c));
  }

  /** Text up to its first occurrence of a separator is determined by the whole. */
  lemma {:induction false} SplitAtFirst(a: string, b: string, x: string, y: string, sep: char)
    requires a + [sep] + x == b + [sep] + y && sep !in a && sep !in b
    ensures a == b && x == y
    decreases |a|
  {
    var s := a + [sep] + x;
    assert s == b + [sep] + y;
    if a == [] {
      assert s[0] == sep;
      assert b == [];
      assert s[1..] == x && s[1..] == y;
    } else {
      assert s[0] == a[0];
      assert b != [] && b[0] == a[0];
      assert s[1..] == a[1..] + [sep] + x && s[1..] == b[1..] + [sep] + y;
      SplitAtFirst(a[1..], b[1..], x, y, sep);
      assert a == [a[0]] + a[1..] && b == [b[0]] + b[1..];
    }
  }

  lemma {:induction false} DecimalUpToBracket(a: nat, b: nat, x: string, y: string)
    requires Decimal(a) + "]" + x == Decimal(b) + "]" + y
    ensures a == b && x == y
  {
    DecimalDigits(a);
    DecimalDigits(b);
    SplitAtFirst(Decimal(a), Decimal(b), x, y, ']');
    DecimalInjective(a, b);
  }

  lemma ChangePathInjective(e1: nat, c1: nat, e2: nat, c2: nat)
    requires ChangePath(e1, c1) == ChangePath(e2, c2)
    ensures e1 == e2 && c1 == c2
  {
    hide Decimal, ChangePath;
    var x1, x2 := ".changes[" + (Decimal(c1) + "]" + ""), ".changes[" + (Decimal(c2) + "]" + "");
    ChangePathUnfolds(e1, c1);
    ChangePathUnfolds(e2, c2);
    SamePrefix("entry[", Decimal(e1) + "]" + x1, Decimal(e2) + "]" + x2);
    DecimalUpToBracket(e1, e2, x1, x2);
    SamePrefix(".changes[", Decimal(c1) + "]" + "", Decimal(c2) + "]" + "");
    DecimalUpToBracket(c1, c2, "", "");
  }

  lemma {:induction false} ChangePathUnfolds(e: nat, c: nat)
    ensures ChangePath(e, c) == "entry[" + (Decimal(e) + "]" + (".changes[" + (Decimal(c) + "]" + "")))
  {
  }

  lemma SamePrefix(p: string, x: string, y: string)
    requires p + x == p + y
    ensures x == y
  {
    assert (p + x)[|p|..] == x && (p + y)[|p|..] == y;
  }

  lemma {:induction false} SyntheticIdUnfolds(kind: Kind, waba: string, field: string, path: string)
    requires SafePath(path) == path
    ensures SyntheticId(kind, waba, field, path) == KindName(kind) + ":" + (SafeId(waba) + ":" + (SafeId(field) + ":" + path))
  {
  }

  /** Two synthetic identifiers of one kind are equal only for the same change of the same entry,
      whatever the account ids and fields are sanitised to. */
  lemma SyntheticIdsNeverCollide(kind: Kind, waba1: string, field1: string, e1: nat, c1: nat,
                                 waba2: string, field2: string, e2: nat, c2: nat)
    requires SyntheticId(kind, waba1, field1, ChangePath(e1, c1)) == SyntheticId(kind, waba2, field2, ChangePath(e2, c2))
    ensures e1 == e2 && c1 == c2
  {
    ChangePathIsSafe(e1, c1);
    ChangePathIsSafe(e2, c2);
    var path1, path2 := ChangePath(e1, c1), ChangePath(e2, c2);
    hide ChangePath, KindName, SafeId, SyntheticId;
    SyntheticIdUnfolds(kind, waba1, field1, path1);
    SyntheticIdUnfolds(kind, waba2, field2, path2);
    SamePrefix(KindName(kind) + ":", SafeId(waba1) + ":" + (SafeId(field1) + ":" + path1),
               SafeId(waba2) + ":" + (SafeId(field2) + ":" + path2));
    SplitAtFirst(SafeId(waba1), SafeId(waba2), SafeId(field1) + ":" + path1, SafeId(field2) + ":" + path2, ':');
    SplitAtFirst(SafeId(field1), SafeId(field2), path1, path2, ':');
    ChangePathInjective(e1, c1, e2, c2);
  }
}

