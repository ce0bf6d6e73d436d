/** listMessages over the message table, and walks that follow nextCursor while other callers write. */
module MessageListing {
  import opened Wrappers
  import opened Ordering
  import opened Messages
  import K = KeysetPaging
  import StatusConvergence

  function KeyOf(m: Message): Key {
    Key(m.createdAt, m.rowId)
  }

  predicate WellKeyed(ms: map<string, Message>) {
    forall r :: r in ms ==> ms[r].rowId == r
  }

  function Keys(ms: map<string, Message>): (ks: set<Key>)
    requires WellKeyed(ms)
    ensures forall k :: k in ks <==> k.id in ms && KeyOf(ms[k.id]) == k
  {
    set r | r in ms :: KeyOf(ms[r])
  }

  function Rows(ms: map<string, Message>, ks: seq<Key>): (rows: seq<Message>)
    requires forall i :: 0 <= i < |ks| ==> ks[i].id in ms
    ensures |rows| == |ks|
    ensures forall i :: 0 <= i < |ks| ==> rows[i] == ms[ks[i].id]
  {
    if ks == [] then [] else [ms[ks[0].id]] + Rows(ms, ks[1..])
  }

  datatype Page = Page(items: seq<Message>, nextCursor: Option<string>)

  /** One row more than the page is fetched, to know whether a cursor is due. */
  function ListMessages(ms: map<string, Message>, limit: nat, before: Option<string>): Page
    requires WellKeyed(ms)
  {
    if before.Some? && before.value !in ms then Page([], None)
    else
      var all := K.Candidates(Keys(ms), CursorKey(ms, before));
      var fetched := Take(K.Newest(all), limit + 1);
      FetchedRowsExist(ms, all, limit, Take(fetched, limit));
      var items := Rows(ms, Take(fetched, limit));
      Page(items, if |fetched| > limit && items != [] then Some(items[|items| - 1].rowId) else None)
  }

  lemma FetchedRowsExist(ms: map<string, Message>, all: set<Key>, limit: nat, top: seq<Key>)
    requires WellKeyed(ms) && all <= Keys(ms)
    requires top == Take(Take(K.Newest(all), limit + 1), limit)
    ensures forall i :: 0 <= i < |top| ==> top[i].id in ms
  {
  }

  function CursorKey(ms: map<string, Message>, before: Option<string>): Option<Key>
    requires before.Some? ==> before.value in ms
  {
    if before.Some? then Some(KeyOf(ms[before.value])) else None
  }

  function ItemKeys(items: seq<Message>): (ks: seq<Key>)
    ensures |ks| == |items|
    ensures forall i :: 0 <= i < |items| ==> ks[i] == KeyOf(items[i])
  {
    if items == [] then [] else [KeyOf(items[0])] + ItemKeys(items[1..])
  }

  /** On keys, a page is the top of the candidates, and its cursor is its last row exactly when
      candidates are left over. */
  lemma PageIsTop(ms: map<string, Message>, limit: nat, before: Option<string>)
    requires WellKeyed(ms) && limit > 0 && (before.Some? ==> before.value in ms)
    ensures var page, at := ListMessages(ms, limit, before), CursorKey(ms, before);
            && ItemKeys(page.items) == K.Top(Keys(ms), limit, at)
            && (forall i :: 0 <= i < |page.items| ==> page.items[i].rowId in ms && ms[page.items[i].rowId] == page.items[i])
            && (page.nextCursor.Some? ==> page.nextCursor.value in ms)
            && CursorKey(ms, page.nextCursor) == K.Cursor(Keys(ms), limit, at)
  {
    hide Before, K.Newest, Keys, Rows, ItemKeys, K.Candidates, KeyOf;
    var at := CursorKey(ms, before);
    var top := K.Top(Keys(ms), limit, at);
    FetchedIsTop(K.Newest(K.Candidates(Keys(ms), at)), limit);
    TopRows(ms, limit, at);
    assert ItemKeys(Rows(ms, top)) == top;
    if top != [] {
      assert KeyOf(ms[top[|top| - 1].id]) == top[|top| - 1];
    }
  }

  /** The SELECT of a listing: the newest rows below the cursor, at most `count` of them. */
  function Fetch(ms: map<string, Message>, at: Option<Key>, count: nat): (rows: seq<Message>)
    requires WellKeyed(ms)
  {
    var all := K.Candidates(Keys(ms), at);
    FetchedRowsExist(ms, all, count, Take(Take(K.Newest(all), count + 1), count));
    FetchedIsTop(K.Newest(all), count);
    Rows(ms, Take(K.Newest(all), count))
  }

  /** The page is the top of the rows below the cursor, as they stand in the table, with a cursor exactly when
      rows are left over: its own last row. */
  predicate IsTopPage(ms: map<string, Message>, limit: nat, before: Option<string>, page: Page)
    requires WellKeyed(ms) && (before.Some? ==> before.value in ms)
  {
    var keys, at := Keys(ms), CursorKey(ms, before);
    && ItemKeys(page.items) == K.Top(keys, limit, at)
    && (forall m :: m in page.items ==> m.rowId in ms && ms[m.rowId] == m)
    && (page.nextCursor.Some? <==> |K.Candidates(keys, at)| > limit)
    && (page.nextCursor.Some? ==> page.items != [] && page.nextCursor.value == page.items[|page.items| - 1].rowId)
  }

  /** One row more than the page is fetched; the page is what is left without it, and the cursor tells
      that it was there. */
  lemma PageFromFetch(ms: map<string, Message>, limit: nat, before: Option<string>)
    requires WellKeyed(ms) && limit > 0 && (before.Some? ==> before.value in ms)
    ensures var rows := Fetch(ms, CursorKey(ms, before), limit + 1);
            var items := if |rows| > limit then rows[..limit] else rows;
            var nextCursor := if |rows| > limit then Some(items[|items| - 1].rowId) else None;
            && ListMessages(ms, limit, before) == Page(items, nextCursor)
            && CursorKey(ms, before) == (if before.Some? then Some(KeyOf(ms[before.value])) else None)
            && IsTopPage(ms, limit, before, Page(items, nextCursor))
  {
    hide K.Newest, Keys, K.Candidates, Before, K.Top, ItemKeys, KeyOf, Fetch;
    PageIsTop(ms, limit, before);
    FetchIsPage(ms, limit, before);
    FetchLength(ms, CursorKey(ms, before), limit);
    hide ListMessages;
  }

  lemma {:induction false} FetchIsPage(ms: map<string, Message>, limit: nat, before: Option<string>)
    requires WellKeyed(ms) && limit > 0 && (before.Some? ==> before.value in ms)
    ensures var rows := Fetch(ms, CursorKey(ms, before), limit + 1);
            var items := if |rows| > limit then rows[..limit] else rows;
            ListMessages(ms, limit, before) == Page(items, if |rows| > limit then Some(items[|items| - 1].rowId) else None)
  {
    FetchLength(ms, CursorKey(ms, before), limit);
    hide K.Newest, Keys, K.Candidates, Before, KeyOf;
  }

  lemma {:induction false} FetchLength(ms: map<string, Message>, at: Option<Key>, limit: nat)
    requires WellKeyed(ms)
    ensures |Fetch(ms, at, limit + 1)| > limit <==> |K.Candidates(Keys(ms), at)| > limit
    ensures var top, rows := Take(Take(K.Newest(K.Candidates(Keys(ms), at)), limit + 1), limit), Fetch(ms, at, limit + 1);
            && (forall i :: 0 <= i < |top| ==> top[i].id in ms)
            && Rows(ms, top) == if |rows| > limit then rows[..limit] else rows
  {
    var all := K.Candidates(Keys(ms), at);
    FetchedRowsExist(ms, all, limit, Take(Take(K.Newest(all), limit + 1), limit));
    hide K.Newest, Keys, K.Candidates, Before;
  }

  lemma FetchedIsTop(all: seq<Key>, limit: nat)
    ensures Take(Take(all, limit + 1), limit) == Take(all, limit)
    ensures |Take(all, limit + 1)| > limit <==> |all| > limit
  {
  }

  /** The rows of a page are the table's, and carry its keys. */
  lemma {:induction false} TopRows(ms: map<string, Message>, limit: nat, at: Option<Key>)
    requires WellKeyed(ms)
    ensures var top := K.Top(Keys(ms), limit, at);
            && (forall i :: 0 <= i < |top| ==> top[i].id in ms && ms[top[i].id].rowId == top[i].id && KeyOf(ms[top[i].id]) == top[i])
            && ItemKeys(Rows(ms, top)) == top
  {
    hide Before, K.Newest;
    var all := K.Candidates(Keys(ms), at);
    var top := K.Top(Keys(ms), limit, at);
    forall i | 0 <= i < |top| ensures top[i].id in ms && KeyOf(ms[top[i].id]) == top[i] {
      assert top[i] in K.Newest(all);
    }
  }

  // ----- walks -----

  datatype Walked = Walked(items: seq<Message>, finished: bool)

  /** Pages are read one after another, the i-th from snapshots[i]; finished when no cursor came back. */
  function Walk(snapshots: seq<map<string, Message>>, limit: nat, before: Option<string>): Walked
    requires forall i :: 0 <= i < |snapshots| ==> WellKeyed(snapshots[i])
  {
    if snapshots == [] then Walked([], false)
    else
      var page := ListMessages(snapshots[0], limit, before);
      if page.nextCursor.None? then Walked(page.items, true)
      else
        var rest := Walk(snapshots[1..], limit, page.nextCursor);
        Walked(page.items + rest.items, rest.finished)
  }

  /** Rows are only ever added, and keep their place in the order. */
  predicate Grows(a: map<string, Message>, b: map<string, Message>) {
    forall r :: r in a ==> r in b && KeyOf(a[r]) == KeyOf(b[r])
  }

  predicate Growing(snapshots: seq<map<string, Message>>) {
    && (forall i :: 0 <= i < |snapshots| ==> WellKeyed(snapshots[i]))
    && forall i :: 0 < i < |snapshots| ==> Grows(snapshots[i - 1], snapshots[i])
  }

  function KeySets(snapshots: seq<map<string, Message>>): (ts: seq<set<Key>>)
    requires forall i :: 0 <= i < |snapshots| ==> WellKeyed(snapshots[i])
    ensures |ts| == |snapshots|
    ensures forall i :: 0 <= i < |ts| ==> ts[i] == Keys(snapshots[i])
  {
    if snapshots == [] then [] else [Keys(snapshots[0])] + KeySets(snapshots[1..])
  }

  lemma {:induction false} KeySetsGrow(snapshots: seq<map<string, Message>>)
    requires Growing(snapshots)
    ensures K.Growing(KeySets(snapshots))
  {
  }

  lemma {:induction false} ItemKeysConcat(a: seq<Message>, b: seq<Message>)
    ensures ItemKeys(a + b) == ItemKeys(a) + ItemKeys(b)
  {
  }

  lemma CursorStays(snapshots: seq<map<string, Message>>, before: Option<string>)
    requires Growing(snapshots) && |snapshots| > 1 && (before.Some? ==> before.value in snapshots[0])
    ensures before.Some? ==> before.value in snapshots[1]
    ensures CursorKey(snapshots[1], before) == CursorKey(snapshots[0], before)
  {
  }

  lemma {:induction false} TailGrows(snapshots: seq<map<string, Message>>)
    requires Growing(snapshots) && snapshots != []
    ensures Growing(snapshots[1..])
    ensures KeySets(snapshots)[1..] == KeySets(snapshots[1..])
  {
  }

  /** A walk over growing rows is the keyset walk over their keys. */
  lemma {:induction false} WalkOnKeys(snapshots: seq<map<string, Message>>, limit: nat, before: Option<string>, at: Option<Key>)
    requires limit > 0 && Growing(snapshots)
    requires snapshots != [] ==> (before.Some? ==> before.value in snapshots[0]) && at == CursorKey(snapshots[0], before)
    ensures var w, k := Walk(snapshots, limit, before), K.Walk(KeySets(snapshots), limit, at);
            ItemKeys(w.items) == k.keys && w.finished == k.finished
    decreases |snapshots|
  {
    hide ListMessages, K.Top, K.Cursor, Grows, Keys;
    if snapshots != [] {
      var page := ListMessages(snapshots[0], limit, before);
      PageIsTop(snapshots[0], limit, before);
      TailGrows(snapshots);
      if page.nextCursor.Some? {
        if |snapshots| > 1 {
          CursorStays(snapshots, page.nextCursor);
        }
        WalkOnKeys(snapshots[1..], limit, page.nextCursor, CursorKey(snapshots[0], page.nextCursor));
        ItemKeysConcat(page.items, Walk(snapshots[1..], limit, page.nextCursor).items);
      }
    }
  }

  /** A walk from the top, with other callers writing between its pages: strictly descending, and no
      row id twice. */
  lemma {:induction false} WalkNeverRepeats(snapshots: seq<map<string, Message>>, limit: nat)
    requires limit > 0 && Growing(snapshots) && snapshots != []
    ensures var items := Walk(snapshots, limit, None).items;
            && K.Descending(ItemKeys(items))
            && forall i, j :: 0 <= i < j < |items| ==> items[i].rowId != items[j].rowId
  {
    hide ListMessages;
    var tables := KeySets(snapshots);
    var keys := K.Walk(tables, limit, None).keys;
    KeySetsGrow(snapshots);
    WalkOnKeys(snapshots, limit, None, None);
    K.WalkDescends(tables, limit, None);
    forall i, j | 0 <= i < j < |keys| ensures keys[i].id != keys[j].id {
      K.WalkStaysInside(tables, limit, None, keys[i]);
      K.WalkStaysInside(tables, limit, None, keys[j]);
      DistinctIds(snapshots[|snapshots| - 1], keys[i], keys[j]);
    }
  }

  /** Once finished, such a walk has returned every row that was there when it began. */
  lemma {:induction false} FinishedWalkReturnsEveryRow(snapshots: seq<map<string, Message>>, limit: nat, r: string)
    requires limit > 0 && Growing(snapshots) && snapshots != [] && r in snapshots[0]
    requires Walk(snapshots, limit, None).finished
    ensures exists i :: 0 <= i < |Walk(snapshots, limit, None).items| && Walk(snapshots, limit, None).items[i].rowId == r
  {
    hide ListMessages;
    var items := Walk(snapshots, limit, None).items;
    var tables := KeySets(snapshots);
    KeySetsGrow(snapshots);
    WalkOnKeys(snapshots, limit, None, None);
    K.FinishedWalkIsComplete(tables, limit, None, KeyOf(snapshots[0][r]));
    var i :| 0 <= i < |ItemKeys(items)| && ItemKeys(items)[i] == KeyOf(snapshots[0][r]);
    assert items[i].rowId == r;
  }

  lemma DistinctIds(ms: map<string, Message>, a: Key, b: Key)
    requires WellKeyed(ms) && a in Keys(ms) && b in Keys(ms) && Before(b, a)
    ensures a.id != b.id
  {
    BeforeIrreflexive(a);
  }

  /** Rows may change between the pages, but none is added. */
  predicate Quiet(snapshots: seq<map<string, Message>>, ms: map<string, Message>) {
    WellKeyed(ms) && Growing(snapshots) && forall i :: 0 <= i < |snapshots| ==> Keys(snapshots[i]) == Keys(ms)
  }

  /** Without inserts, whatever else is written between the pages, the walk ends after exactly the pages
      the rows fill, having returned the whole table sorted newest first. */
  lemma {:induction false} QuietWalkIsTheTable(snapshots: seq<map<string, Message>>, ms: map<string, Message>, limit: nat)
    requires limit > 0 && Quiet(snapshots, ms)
    ensures var w := Walk(snapshots, limit, None);
            && (w.finished <==> snapshots != [] && |Keys(ms)| <= limit * |snapshots|)
            && (w.finished ==> ItemKeys(w.items) == K.Newest(Keys(ms)))
  {
    QuietKeySets(snapshots, ms);
    hide Growing, Quiet, Keys, Walk, K.Walk, K.Newest, KeySets, ItemKeys, WellKeyed, K.Quiet;
    WalkOnKeys(snapshots, limit, None, None);
    K.QuietWalkLength(KeySets(snapshots), Keys(ms), limit, None);
    if Walk(snapshots, limit, None).finished {
      K.QuietWalkIsTheListing(KeySets(snapshots), Keys(ms), limit, None);
    }
  }

  lemma {:induction false} QuietKeySets(snapshots: seq<map<string, Message>>, ms: map<string, Message>)
    requires Quiet(snapshots, ms)
    ensures WellKeyed(ms) && Growing(snapshots) && (forall i :: 0 <= i < |snapshots| ==> WellKeyed(snapshots[i]))
    ensures K.Quiet(KeySets(snapshots), Keys(ms))
  {
    hide Keys;
  }

  // ----- the writers that may run between pages -----

  lemma StepGrows(backend: Backend, run: StatusConvergence.Run, s: StatusConvergence.Step)
    requires StatusConvergence.WellKeyed(run)
    ensures Grows(run.tables.messages, StatusConvergence.Next(backend, run, s).tables.messages)
  {
    if s.Record? {
      RecordFrame(backend, run.tables, s.m);
    }
  }

  lemma {:induction false} RunsGrow(backend: Backend, steps: seq<StatusConvergence.Step>, i: nat, j: nat)
    requires i <= j <= |steps|
    ensures var a, b := StatusConvergence.After(backend, steps[..i]), StatusConvergence.After(backend, steps[..j]);
            && StatusConvergence.WellKeyed(a) && StatusConvergence.WellKeyed(b)
            && Grows(a.tables.messages, b.tables.messages)
    decreases j
  {
    hide StatusConvergence.Next;
    if j == 0 {
      assert steps[..0] == [];
    } else {
      var before := StatusConvergence.After(backend, steps[..j - 1]);
      assert steps[..j][..j - 1] == steps[..j - 1] && steps[..j][j - 1] == steps[j - 1];
      RunsGrow(backend, steps, if i < j then i else j - 1, j - 1);
      StatusConvergence.NextWellKeyed(backend, before, steps[j - 1]);
      StepGrows(backend, before, steps[j - 1]);
    }
  }

  /** Any run of recordMessage and appendMessageStatus calls, complete or interrupted, may be cut
      anywhere between two pages: the tables read by the pages grow. */
  lemma PagesOfARunGrow(backend: Backend, steps: seq<StatusConvergence.Step>, cuts: seq<nat>, snapshots: seq<map<string, Message>>)
    requires |snapshots| == |cuts|
    requires forall i :: 0 <= i < |cuts| ==> cuts[i] <= |steps|
    requires forall i :: 0 < i < |cuts| ==> cuts[i - 1] <= cuts[i]
    requires forall i :: 0 <= i < |cuts| ==>
               snapshots[i] == StatusConvergence.After(backend, steps[..cuts[i]]).tables.messages
    ensures Growing(snapshots)
  {
    hide StatusConvergence.After;
    forall i | 0 <= i < |snapshots| ensures WellKeyed(snapshots[i]) {
      RunsGrow(backend, steps, cuts[i], cuts[i]);
    }
    forall i | 0 < i < |snapshots| ensures Grows(snapshots[i - 1], snapshots[i]) {
      RunsGrow(backend, steps, cuts[i - 1], cuts[i]);
    }
  }

  /** The step adds no row: an append, or a recording whose insert is ignored. */
  predicate AddsNothing(run: StatusConvergence.Run, s: StatusConvergence.Step) {
    s.Append? || Insert(run.tables.messages, s.m) == run.tables.messages
  }

  lemma AddsNothingKeepsRows(backend: Backend, run: StatusConvergence.Run, s: StatusConvergence.Step)
    requires AddsNothing(run, s)
    ensures StatusConvergence.Next(backend, run, s).tables.messages.Keys == run.tables.messages.Keys
  {
    if s.Record? {
      RecordFrame(backend, run.tables, s.m);
    }
  }

  lemma {:induction false} QuietStretch(backend: Backend, steps: seq<StatusConvergence.Step>, i: nat, j: nat)
    requires i <= j <= |steps|
    requires forall k :: i <= k < j ==> AddsNothing(StatusConvergence.After(backend, steps[..k]), steps[k])
    ensures (StatusConvergence.After(backend, steps[..i]).tables.messages.Keys ==
             StatusConvergence.After(backend, steps[..j]).tables.messages.Keys)
    decreases j
  {
    hide StatusConvergence.Next, AddsNothing;
    if i < j {
      var before := StatusConvergence.After(backend, steps[..j - 1]);
      assert steps[..j][..j - 1] == steps[..j - 1] && steps[..j][j - 1] == steps[j - 1];
      QuietStretch(backend, steps, i, j - 1);
      AddsNothingKeepsRows(backend, before, steps[j - 1]);
    }
  }

  /** Pages read during a stretch of a run in which appends and ignored inserts happen but no row is
      added, are quiet. */
  lemma {:induction false} PagesOfAQuietStretch(backend: Backend, steps: seq<StatusConvergence.Step>, cuts: seq<nat>,
                                                snapshots: seq<map<string, Message>>)
    requires |snapshots| == |cuts| > 0
    requires forall i :: 0 <= i < |cuts| ==> cuts[0] <= cuts[i] <= |steps|
    requires forall i :: 0 < i < |cuts| ==> cuts[i - 1] <= cuts[i]
    requires forall i :: 0 <= i < |cuts| ==>
               snapshots[i] == StatusConvergence.After(backend, steps[..cuts[i]]).tables.messages
    requires forall k :: cuts[0] <= k < |steps| ==> AddsNothing(StatusConvergence.After(backend, steps[..k]), steps[k])
    ensures Quiet(snapshots, snapshots[0])
  {
    hide StatusConvergence.After, Keys, Growing;
    PagesOfARunGrow(backend, steps, cuts, snapshots);
    forall i | 0 <= i < |snapshots| ensures WellKeyed(snapshots[i]) {
      RunsGrow(backend, steps, cuts[0], cuts[i]);
    }
    forall i | 0 <= i < |snapshots| ensures Keys(snapshots[i]) == Keys(snapshots[0]) {
      RunsGrow(backend, steps, cuts[0], cuts[i]);
      QuietStretch(backend, steps, cuts[0], cuts[i]);
      SameRowsSameKeys(snapshots[0], snapshots[i]);
    }
  }

  lemma SameRowsSameKeys(a: map<string, Message>, b: map<string, Message>)
    requires WellKeyed(a) && WellKeyed(b) && Grows(a, b) && a.Keys == b.Keys
    ensures Keys(a) == Keys(b)
  {
    forall k ensures k in Keys(a) <==> k in Keys(b) {
      assert k.id in a.Keys <==> k.id in b.Keys;
    }
  }
}
