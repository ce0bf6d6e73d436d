/** The two orders the program sorts by: text compared code by code, and rows compared by
    (timestamp, id). Both are strict total orders, so a finite set has exactly one sorted listing. */
module Ordering {

  /** Lexicographic order on codes: a proper prefix comes first. */
  predicate Lex(a: seq<int>, b: seq<int>)
    decreases |b|
  {
    b != [] && (a == [] || a[0] < b[0] || (a[0] == b[0] && Lex(a[1..], b[1..])))
  }

  lemma {:induction false} LexIrreflexive(a: seq<int>)
    ensures !Lex(a, a)
  {
    if a != [] {
      LexIrreflexive(a[1..]);
    }
  }

  lemma {:induction false} LexTransitive(a: seq<int>, b: seq<int>, c: seq<int>)
    requires Lex(a, b) && Lex(b, c)
    ensures Lex(a, c)
    decreases |c|
  {
    if a != [] && a[0] == b[0] == c[0] {
      LexTransitive(a[1..], b[1..], c[1..]);
    }
  }

  lemma {:induction false} LexTotal(a: seq<int>, b: seq<int>)
    ensures a == b || Lex(a, b) || Lex(b, a)
  {
    if a != [] && b != [] && a[0] == b[0] {
      LexTotal(a[1..], b[1..]);
      assert a == [a[0]] + a[1..] && b == [b[0]] + b[1..];
    }
  }

  /** One text comes before another when it is a proper part of its beginning, or when the first code in
      which they differ is the lesser. */
  lemma {:induction false} LexExactly(a: seq<int>, b: seq<int>)
    ensures Lex(a, b) <==> a < b || exists k :: 0 <= k < |a| && k < |b| && a[..k] == b[..k] && a[k] < b[k]
    decreases |b|
  {
    if a != [] && b != [] && a[0] == b[0] {
      LexExactly(a[1..], b[1..]);
      assert a == [a[0]] + a[1..] && b == [b[0]] + b[1..];
      if k :| 0 <= k < |a[1..]| && k < |b[1..]| && a[1..][..k] == b[1..][..k] && a[1..][k] < b[1..][k] {
        assert a[..k + 1] == [a[0]] + a[1..][..k] && b[..k + 1] == [b[0]] + b[1..][..k];
        assert a[k + 1] < b[k + 1];
      }
      if k :| 0 <= k < |a| && k < |b| && a[..k] == b[..k] && a[k] < b[k] {
        assert k > 0 && a[1..][..k - 1] == a[..k][1..] && b[1..][..k - 1] == b[..k][1..];
      }
    } else if a != [] && b != [] && a[0] < b[0] {
      assert a[..0] == b[..0];
    } else if a != [] && b != [] {
      assert forall k :: 0 < k < |a| && k < |b| ==> a[..k][0] == a[0] && b[..k][0] == b[0];
    }
  }

  function Codes(s: string): (r: seq<int>)
    ensures |r| == |s|
  {
    seq(|s|, i requires 0 <= i < |s| => s[i] as int)
  }

  lemma CodesInjective(a: string, b: string)
    requires Codes(a) == Codes(b)
    ensures a == b
  {
    forall i | 0 <= i < |a| ensures a[i] == b[i] {
      assert Codes(a)[i] == Codes(b)[i];
    }
  }

  /** The columns a listing is ordered by. */
  datatype Key = Key(at: int, id: string)

  predicate Before(a: Key, b: Key) {
    a.at < b.at || (a.at == b.at && Lex(Codes(a.id), Codes(b.id)))
  }

  lemma BeforeIrreflexive(a: Key)
    ensures !Before(a, a)
  {
    LexIrreflexive(Codes(a.id));
  }

  lemma BeforeTransitive(a: Key, b: Key, c: Key)
    requires Before(a, b) && Before(b, c)
    ensures Before(a, c)
  {
    if a.at == b.at == c.at {
      LexTransitive(Codes(a.id), Codes(b.id), Codes(c.id));
    }
  }

  lemma BeforeTotal(a: Key, b: Key)
    ensures a == b || Before(a, b) || Before(b, a)
  {
    LexTotal(Codes(a.id), Codes(b.id));
    if Codes(a.id) == Codes(b.id) {
      CodesInjective(a.id, b.id);
    }
  }

  lemma BeforeAsymmetric(a: Key, b: Key)
    requires Before(a, b)
    ensures !Before(b, a)
  {
    if Before(b, a) {
      BeforeTransitive(a, b, a);
      BeforeIrreflexive(a);
    }
  }

  predicate Ascending(s: seq<Key>) {
    forall i, j :: 0 <= i < j < |s| ==> Before(s[i], s[j])
  }

  predicate IsLeast(k: Key, s: set<Key>) {
    k in s && forall o :: o in s && o != k ==> Before(k, o)
  }

  lemma {:induction false} LeastExists(s: set<Key>)
    requires s != {}
    ensures exists k :: IsLeast(k, s)
    decreases |s|
  {
    var x :| x in s;
    var rest := s - {x};
    if rest == {} {
      assert s == {x};
      assert IsLeast(x, s);
    } else {
      LeastExists(rest);
      var m :| IsLeast(m, rest);
      BeforeTotal(x, m);
      if Before(x, m) {
        forall o | o in s && o != x ensures Before(x, o) {
          if o != m {
            BeforeTransitive(x, m, o);
          }
        }
        assert IsLeast(x, s);
      } else {
        assert IsLeast(m, s);
      }
    }
  }

  lemma LeastUnique(a: Key, b: Key, s: set<Key>)
    requires IsLeast(a, s) && IsLeast(b, s)
    ensures a == b
  {
    if a != b {
      BeforeAsymmetric(a, b);
    }
  }

  /** ORDER BY at ASC, id ASC. */
  function Sorted(s: set<Key>): (r: seq<Key>)
    ensures forall k :: k in r <==> k in s
    ensures |r| == |s|
    decreases |s|
  {
    if s == {} then []
    else
      LeastExists(s);
      assert forall a, b | IsLeast(a, s) && IsLeast(b, s) :: a == b by {
        forall a, b | IsLeast(a, s) && IsLeast(b, s) ensures a == b { LeastUnique(a, b, s); }
      }
      var k :| IsLeast(k, s);
      [k] + Sorted(s - {k})
  }

  lemma {:induction false} SortedAscends(s: set<Key>)
    ensures Ascending(Sorted(s))
    decreases |s|
  {
    if s != {} {
      LeastExists(s);
      var k := Sorted(s)[0];
      assert IsLeast(k, s) && Sorted(s) == [k] + Sorted(s - {k}) by {
        var least :| IsLeast(least, s) && Sorted(s) == [least] + Sorted(s - {least});
      }
      var rest := Sorted(s - {k});
      SortedAscends(s - {k});
      forall i | 0 <= i < |rest| ensures Before(k, rest[i]) {
        assert rest[i] in rest;
      }
    }
  }

  function Elements(a: seq<Key>): set<Key> {
    set k | k in a
  }

  lemma ElementsEmpty(a: seq<Key>)
    ensures a == [] <==> Elements(a) == {}
  {
    if a != [] {
      assert a[0] in Elements(a);
    }
  }

  lemma HeadIsLeast(a: seq<Key>)
    requires Ascending(a) && a != []
    ensures IsLeast(a[0], Elements(a))
    ensures Elements(a[1..]) == Elements(a) - {a[0]}
  {
    BeforeIrreflexive(a[0]);
    assert a[0] !in a[1..] by {
      assert forall i :: 0 <= i < |a[1..]| ==> Before(a[0], a[1..][i]);
    }
    assert forall k :: k in a <==> k == a[0] || k in a[1..];
  }

  /** An ascending listing is determined by the set it lists. */
  lemma {:induction false} AscendingUnique(a: seq<Key>, b: seq<Key>)
    requires Ascending(a) && Ascending(b)
    requires Elements(a) == Elements(b)
    ensures a == b
    decreases |a|
  {
    if a != [] && b != [] {
      HeadIsLeast(a);
      HeadIsLeast(b);
      LeastUnique(a[0], b[0], Elements(a));
      AscendingUnique(a[1..], b[1..]);
      assert a == [a[0]] + a[1..] && b == [b[0]] + b[1..];
    } else {
      ElementsEmpty(a);
      ElementsEmpty(b);
    }
  }

  /** LIMIT n. */
  function Take<T>(s: seq<T>, n: nat): seq<T> {
    if |s| <= n then s else s[..n]
  }
}
