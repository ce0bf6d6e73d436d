/** Keyset paging over bare sort keys: pages taken from the top of a growing set. */
module KeysetPaging {
  import opened Wrappers
  import opened Ordering

  predicate Descending(s: seq<Key>) {
    forall i, j :: 0 <= i < j < |s| ==> Before(s[j], s[i])
  }

  function Reverse(s: seq<Key>): (r: seq<Key>)
    ensures |r| == |s|
    ensures forall i :: 0 <= i < |s| ==> r[i] == s[|s| - 1 - i]
  {
    if s == [] then [] else Reverse(s[1..]) + [s[0]]
  }

  lemma {:induction false} ReverseElements(s: seq<Key>)
    ensures forall k :: k in Reverse(s) <==> k in s
  {
    if s != [] {
      ReverseElements(s[1..]);
      assert forall k :: k in s <==> k == s[0] || k in s[1..];
    }
  }

  /** ORDER BY created_at DESC, row_id DESC. */
  function Newest(ks: set<Key>): (r: seq<Key>)
    ensures |r| == |ks|
    ensures forall k :: k in r <==> k in ks
  {
    ReverseElements(Sorted(ks));
    Reverse(Sorted(ks))
  }

  lemma NewestDescends(ks: set<Key>)
    ensures Descending(Newest(ks))
  {
    SortedAscends(ks);
  }

  /** A descending listing is determined by the set it lists. */
  lemma DescendingUnique(a: seq<Key>, b: seq<Key>)
    requires Descending(a) && Descending(b)
    requires Elements(a) == Elements(b)
    ensures a == b
  {
    ReverseElements(a);
    ReverseElements(b);
    assert Elements(Reverse(a)) == Elements(a) && Elements(Reverse(b)) == Elements(b);
    AscendingUnique(Reverse(a), Reverse(b));
    assert |a| == |b|;
    forall i | 0 <= i < |a| ensures a[i] == b[i] {
      assert Reverse(a)[|a| - 1 - i] == Reverse(b)[|a| - 1 - i];
    }
  }

  /** The keys a page may draw from: all of them, or those strictly below the cursor. */
  function Candidates(ks: set<Key>, before: Option<Key>): set<Key> {
    match before
    case None => ks
    case Some(k) => set o | o in ks && Before(o, k)
  }

  function Top(ks: set<Key>, limit: nat, before: Option<Key>): seq<Key> {
    Take(Newest(Candidates(ks, before)), limit)
  }

  /** The cursor a page hands out: its last key, when more candidates remain. */
  function Cursor(ks: set<Key>, limit: nat, before: Option<Key>): Option<Key>
    requires limit > 0
  {
    if |Candidates(ks, before)| > limit then Some(Top(ks, limit, before)[limit - 1]) else None
  }

  lemma TopIsDescending(ks: set<Key>, limit: nat, before: Option<Key>)
    ensures Descending(Top(ks, limit, before))
    ensures forall k :: k in Top(ks, limit, before) ==> k in Candidates(ks, before)
  {
    var down := Newest(Candidates(ks, before));
    NewestDescends(Candidates(ks, before));
    forall k | k in Top(ks, limit, before) ensures k in Candidates(ks, before) {
      assert k in down;
    }
  }

  /** Whatever a page leaves out lies strictly below its cursor. */
  lemma LeftOutLiesBelow(ks: set<Key>, limit: nat, before: Option<Key>, k: Key)
    requires limit > 0 && k in Candidates(ks, before)
    ensures k in Top(ks, limit, before) ||
            (Cursor(ks, limit, before).Some? && Before(k, Cursor(ks, limit, before).value))
  {
    var down := Newest(Candidates(ks, before));
    NewestDescends(Candidates(ks, before));
    assert k in down;
    var i :| 0 <= i < |down| && down[i] == k;
    if i < limit {
      assert Top(ks, limit, before)[i] == k;
    }
  }

  datatype Walked = Walked(keys: seq<Key>, finished: bool)

  /** Pages are read one after another, the i-th from tables[i]; finished when no cursor came back. */
  function Walk(tables: seq<set<Key>>, limit: nat, before: Option<Key>): Walked
    requires limit > 0
  {
    if tables == [] then Walked([], false)
    else
      var page, cursor := Top(tables[0], limit, before), Cursor(tables[0], limit, before);
      if cursor.None? then Walked(page, true)
      else
        var rest := Walk(tables[1..], limit, cursor);
        Walked(page + rest.keys, rest.finished)
  }

  predicate Growing(tables: seq<set<Key>>) {
    forall i :: 0 < i < |tables| ==> tables[i - 1] <= tables[i]
  }

  lemma DescendingConcat(a: seq<Key>, b: seq<Key>)
    requires Descending(a) && Descending(b) && a != []
    requires forall k :: k in b ==> Before(k, a[|a| - 1])
    ensures Descending(a + b)
  {
    forall i, j | 0 <= i < |a| && 0 <= j < |b| ensures Before(b[j], a[i]) {
      assert b[j] in b;
      if i < |a| - 1 {
        BeforeTransitive(b[j], a[|a| - 1], a[i]);
      }
    }
  }

  /** The rest of a walk is strictly descending and below its cursor. */
  lemma {:induction false} WalkDescends(tables: seq<set<Key>>, limit: nat, before: Option<Key>)
    requires limit > 0
    ensures Descending(Walk(tables, limit, before).keys)
    ensures before.Some? ==> forall k :: k in Walk(tables, limit, before).keys ==> Before(k, before.value)
    decreases |tables|
  {
    hide Before, Newest;
    if tables != [] {
      var page, cursor := Top(tables[0], limit, before), Cursor(tables[0], limit, before);
      TopIsDescending(tables[0], limit, before);
      if cursor.Some? {
        var rest := Walk(tables[1..], limit, cursor);
        WalkDescends(tables[1..], limit, cursor);
        DescendingConcat(page, rest.keys);
        assert cursor.value in page;
        if before.Some? {
          forall k | k in rest.keys ensures Before(k, before.value) {
            BeforeTransitive(k, cursor.value, before.value);
          }
        }
      }
    }
  }

  /** A finished walk has returned every key that was a candidate when it began. */
  lemma {:induction false} FinishedWalkIsComplete(tables: seq<set<Key>>, limit: nat, before: Option<Key>, k: Key)
    requires limit > 0 && Growing(tables) && tables != []
    requires Walk(tables, limit, before).finished && k in Candidates(tables[0], before)
    ensures k in Walk(tables, limit, before).keys
    decreases |tables|
  {
    var cursor := Cursor(tables[0], limit, before);
    LeftOutLiesBelow(tables[0], limit, before, k);
    if cursor.Some? && k !in Top(tables[0], limit, before) {
      assert tables[1..] != [];
      assert tables[0] <= tables[1];
      FinishedWalkIsComplete(tables[1..], limit, cursor, k);
    }
  }

  lemma {:induction false} WalkStaysInside(tables: seq<set<Key>>, limit: nat, before: Option<Key>, k: Key)
    requires limit > 0 && Growing(tables) && k in Walk(tables, limit, before).keys
    ensures tables != [] && k in tables[|tables| - 1]
    decreases |tables|
  {
    TopIsDescending(tables[0], limit, before);
    if k in Top(tables[0], limit, before) {
      GrowingToLast(tables, k);
    } else {
      assert forall i :: 0 < i < |tables[1..]| ==> tables[1..][i - 1] == tables[i] && tables[1..][i] == tables[i + 1];
      WalkStaysInside(tables[1..], limit, Cursor(tables[0], limit, before), k);
    }
  }

  lemma {:induction false} GrowingToLast(tables: seq<set<Key>>, k: Key)
    requires Growing(tables) && tables != [] && k in tables[0]
    ensures k in tables[|tables| - 1]
    decreases |tables|
  {
    if |tables| > 1 {
      assert tables[0] <= tables[1];
      assert forall i :: 0 < i < |tables[1..]| ==> tables[1..][i - 1] == tables[i] && tables[1..][i] == tables[i + 1];
      GrowingToLast(tables[1..], k);
    }
  }

  // ----- a quiet table -----

  lemma {:induction false} DistinctCount(ks: seq<Key>)
    requires Descending(ks)
    ensures |Elements(ks)| == |ks|
  {
    if ks != [] {
      var init, last := ks[..|ks| - 1], ks[|ks| - 1];
      DistinctCount(init);
      assert last !in init by {
        BeforeIrreflexive(last);
        assert forall i :: 0 <= i < |init| ==> Before(last, init[i]);
      }
      assert ks == init + [last];
      assert Elements(ks) == Elements(init) + {last};
    }
  }

  lemma QuietLeftoverKeys(ks: set<Key>, limit: nat, before: Option<Key>, cursor: Key)
    requires limit > 0 && Cursor(ks, limit, before) == Some(cursor)
    ensures Candidates(ks, Some(cursor)) == Candidates(ks, before) - Elements(Top(ks, limit, before))
  {
    hide Before, Newest;
    var all, page := Candidates(ks, before), Top(ks, limit, before);
    TopIsDescending(ks, limit, before);
    forall k | k in all && k !in page ensures k in Candidates(ks, Some(cursor)) {
      LeftOutLiesBelow(ks, limit, before, k);
    }
    forall k | k in Candidates(ks, Some(cursor)) ensures k in all && k !in page {
      if before.Some? {
        assert cursor in page;
        BeforeTransitive(k, cursor, before.value);
      }
      PageLiesAbove(page, k);
    }
  }

  /** On an unchanged table, the candidates after a page are those before it minus the page. */
  lemma QuietLeftover(ks: set<Key>, limit: nat, before: Option<Key>)
    requires limit > 0 && Cursor(ks, limit, before).Some?
    ensures Candidates(ks, Cursor(ks, limit, before)) == Candidates(ks, before) - Elements(Top(ks, limit, before))
    ensures |Candidates(ks, Cursor(ks, limit, before))| == |Candidates(ks, before)| - limit
  {
    hide Before;
    var page := Top(ks, limit, before);
    QuietLeftoverKeys(ks, limit, before, Cursor(ks, limit, before).value);
    TopIsDescending(ks, limit, before);
    DistinctCount(page);
    assert Elements(page) <= Candidates(ks, before);
  }

  lemma PageLiesAbove(page: seq<Key>, k: Key)
    requires Descending(page) && page != [] && Before(k, page[|page| - 1])
    ensures k !in page
  {
    forall i | 0 <= i < |page| ensures page[i] != k {
      BeforeIrreflexive(k);
      if i < |page| - 1 {
        BeforeTransitive(k, page[|page| - 1], page[i]);
      }
    }
  }

  predicate Quiet(tables: seq<set<Key>>, ks: set<Key>) {
    forall i :: 0 <= i < |tables| ==> tables[i] == ks
  }

  /** Without writers the walk takes exactly as many pages as the rows need. */
  lemma {:induction false} QuietWalkLength(tables: seq<set<Key>>, ks: set<Key>, limit: nat, before: Option<Key>)
    requires limit > 0 && Quiet(tables, ks)
    ensures Walk(tables, limit, before).finished <==> tables != [] && |Candidates(ks, before)| <= limit * |tables|
    decreases |tables|
  {
    hide Candidates, Top, Before;
    if tables != [] {
      var cursor := Cursor(ks, limit, before);
      var tail := tables[1..];
      assert limit * |tables| == limit + limit * |tail|;
      if cursor.Some? {
        QuietWalkLength(tail, ks, limit, cursor);
        QuietLeftover(ks, limit, before);
      } else {
        assert 0 <= limit * |tail|;
      }
    }
  }

  /** Without writers the pages of a finished walk, put together, are the sorted listing. */
  lemma {:induction false} QuietWalkIsTheListing(tables: seq<set<Key>>, ks: set<Key>, limit: nat, before: Option<Key>)
    requires limit > 0 && Quiet(tables, ks)
    requires Walk(tables, limit, before).finished
    ensures Walk(tables, limit, before).keys == Newest(Candidates(ks, before))
  {
    var all, keys := Candidates(ks, before), Walk(tables, limit, before).keys;
    WalkDescends(tables, limit, before);
    NewestDescends(all);
    forall k ensures k in keys <==> k in all {
      if k in all {
        FinishedWalkIsComplete(tables, limit, before, k);
      }
      if k in keys {
        QuietWalkStaysInside(tables, ks, limit, before, k);
      }
    }
    assert Elements(keys) == Elements(Newest(all));
    DescendingUnique(keys, Newest(all));
  }

  lemma {:induction false} QuietWalkStaysInside(tables: seq<set<Key>>, ks: set<Key>, limit: nat, before: Option<Key>, k: Key)
    requires limit > 0 && Quiet(tables, ks) && k in Walk(tables, limit, before).keys
    ensures k in Candidates(ks, before)
    decreases |tables|
  {
    TopIsDescending(ks, limit, before);
    var cursor := Cursor(ks, limit, before);
    if k !in Top(ks, limit, before) {
      QuietWalkStaysInside(tables[1..], ks, limit, cursor, k);
      QuietLeftover(ks, limit, before);
    }
  }
}
