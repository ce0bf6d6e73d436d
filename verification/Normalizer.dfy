/** Normalising a webhook envelope: nested loops over entries, changes and items feed one accumulator
    that drops duplicates and stops adding, softly, at a limit. */
module Normalizer {
  import opened Wrappers
  import opened SyntheticIds

  /** The accumulator looks only at kind and id; `content` stands for everything else. */
  datatype Update = Update(kind: Kind, updateId: string, content: string)

  datatype SkipReason = MalformedEntry | MalformedChange | MalformedField | DuplicateUpdateId

  datatype Skip = Skip(reason: SkipReason, path: string, detail: string)

  /** An array element as its reader judges it. */
  datatype Item = BadItem(suffix: string, detail: string) | GoodItem(update: Update)

  datatype ItemList = ItemList(name: string, items: seq<Item>)

  /** A change as its reader judges it: refused outright; one update without a natural id; one item
      under a fixed path; or arrays of items (messages and statuses, calls and statuses, ...). */
  datatype Change =
    | Refused(reason: SkipReason, suffix: string, detail: string)
    | Synthetic(kind: Kind, field: string, content: string)
    | Single(suffix: string, item: Item)
    | Lists(lists: seq<ItemList>)

  datatype Entry = BadEntry(detail: string) | GoodEntry(wabaId: string, changes: seq<Change>)

  /** The accumulator as a value. */
  datatype Acc = Acc(updates: seq<Update>, skipped: seq<Skip>, seenKeys: set<string>, limit: nat, overflow: nat, limitHit: bool)

  function Fresh(limit: nat): Acc {
    Acc([], [], {}, limit, 0, false)
  }

  function UpdateKey(u: Update): string {
    KindName(u.kind) + [NUL] + u.updateId
  }

  function PushSkip(acc: Acc, skip: Skip): Acc {
    acc.(skipped := acc.skipped + [skip])
  }

  function Overflow(acc: Acc): Acc {
    acc.(overflow := acc.overflow + 1)
  }

  function PushUpdate(acc: Acc, u: Update, path: string): Acc {
    if UpdateKey(u) in acc.seenKeys then PushSkip(acc, Skip(DuplicateUpdateId, path, u.updateId))
    else if |acc.updates| >= acc.limit then Overflow(acc).(limitHit := true)
    else acc.(seenKeys := acc.seenKeys + {UpdateKey(u)}, updates := acc.updates + [u])
  }

  function PushItem(acc: Acc, item: Item, path: string): Acc {
    match item
    case BadItem(suffix, detail) => PushSkip(acc, Skip(MalformedField, path + suffix, detail))
    case GoodItem(update) => PushUpdate(acc, update, path)
  }

  function ItemPath(path: string, name: string, i: nat): string {
    path + ".value." + name + Index(i)
  }

  /** The loop over one array, from element `i` on. */
  function PushItems(acc: Acc, path: string, list: ItemList, i: nat): Acc
    decreases |list.items| - i
  {
    if i >= |list.items| then acc
    else
      PushItems(if acc.limitHit then Overflow(acc) else PushItem(acc, list.items[i], ItemPath(path, list.name, i)),
                path, list, i + 1)
  }

  function PushLists(acc: Acc, path: string, lists: seq<ItemList>): Acc
    decreases |lists|
  {
    if lists == [] then acc else PushLists(PushItems(acc, path, lists[0], 0), path, lists[1..])
  }

  function NormalizeChange(acc: Acc, wabaId: string, change: Change, path: string): Acc {
    match change
    case Refused(reason, suffix, detail) => PushSkip(acc, Skip(reason, path + suffix, detail))
    case Synthetic(kind, field, content) => PushUpdate(acc, Update(kind, SyntheticId(kind, wabaId, field, path), content), path)
    case Single(suffix, item) => PushItem(acc, item, path + suffix)
    case Lists(lists) => PushLists(acc, path, lists)
  }

  function PushChanges(acc: Acc, wabaId: string, changes: seq<Change>, e: nat, c: nat): Acc
    decreases |changes| - c
  {
    if c >= |changes| then acc
    else
      PushChanges(if acc.limitHit then Overflow(acc) else NormalizeChange(acc, wabaId, changes[c], ChangePath(e, c)),
                  wabaId, changes, e, c + 1)
  }

  function PushEntry(acc: Acc, entry: Entry, e: nat): Acc {
    match entry
    case BadEntry(detail) => PushSkip(acc, Skip(MalformedEntry, EntryPath(e), detail))
    case GoodEntry(wabaId, changes) => PushChanges(acc, wabaId, changes, e, 0)
  }

  function PushEntries(acc: Acc, entries: seq<Entry>, e: nat): Acc
    decreases |entries| - e
  {
    if e >= |entries| then acc else PushEntries(PushEntry(acc, entries[e], e), entries, e + 1)
  }

  datatype Normalized = Normalized(updates: seq<Update>, skipped: seq<Skip>, limitError: Option<nat>)

  /** limitError carries the count of updates and everything that overflowed. */
  function Report(acc: Acc): Normalized {
    Normalized(acc.updates, acc.skipped, if acc.limitHit then Some(|acc.updates| + acc.overflow) else None)
  }

  function Normalize(entries: seq<Entry>, limit: nat): Normalized {
    Report(PushEntries(Fresh(limit), entries, 0))
  }

  // ----- the reference: everything in order, then dedupe, then take -----

  /** One thing the envelope holds, in document order. */
  datatype Task = Skipping(skip: Skip) | Emitting(update: Update, path: string)

  function ItemTask(item: Item, path: string): Task {
    match item
    case BadItem(suffix, detail) => Skipping(Skip(MalformedField, path + suffix, detail))
    case GoodItem(update) => Emitting(update, path)
  }

  function ListTasks(path: string, list: ItemList, i: nat): seq<Task>
    decreases |list.items| - i
  {
    if i >= |list.items| then []
    else [ItemTask(list.items[i], ItemPath(path, list.name, i))] + ListTasks(path, list, i + 1)
  }

  function ListsTasks(path: string, lists: seq<ItemList>): seq<Task> {
    if lists == [] then [] else ListTasks(path, lists[0], 0) + ListsTasks(path, lists[1..])
  }

  function ChangeTasks(wabaId: string, change: Change, path: string): seq<Task> {
    match change
    case Refused(reason, suffix, detail) => [Skipping(Skip(reason, path + suffix, detail))]
    case Synthetic(kind, field, content) => [Emitting(Update(kind, SyntheticId(kind, wabaId, field, path), content), path)]
    case Single(suffix, item) => [ItemTask(item, path + suffix)]
    case Lists(lists) => ListsTasks(path, lists)
  }

  function ChangesTasks(wabaId: string, changes: seq<Change>, e: nat, c: nat): seq<Task>
    decreases |changes| - c
  {
    if c >= |changes| then []
    else ChangeTasks(wabaId, changes[c], ChangePath(e, c)) + ChangesTasks(wabaId, changes, e, c + 1)
  }

  function EntryTasks(entry: Entry, e: nat): seq<Task> {
    match entry
    case BadEntry(detail) => [Skipping(Skip(MalformedEntry, EntryPath(e), detail))]
    case GoodEntry(wabaId, changes) => ChangesTasks(wabaId, changes, e, 0)
  }

  function Tasks(entries: seq<Entry>, e: nat): seq<Task>
    decreases |entries| - e
  {
    if e >= |entries| then [] else EntryTasks(entries[e], e) + Tasks(entries, e + 1)
  }

  function KeysOf(us: seq<Update>): set<string> {
    set u | u in us :: UpdateKey(u)
  }

  /** The first well-formed candidate of each key, in order. */
  function Unique(tasks: seq<Task>): seq<Update> {
    if tasks == [] then []
    else
      var before, last := Unique(tasks[..|tasks| - 1]), tasks[|tasks| - 1];
      if last.Emitting? && UpdateKey(last.update) !in KeysOf(before) then before + [last.update] else before
  }

  /** Every malformed part, and every repeated candidate, in order. */
  function AllSkips(tasks: seq<Task>): seq<Skip> {
    if tasks == [] then []
    else
      var before, last := tasks[..|tasks| - 1], tasks[|tasks| - 1];
      AllSkips(before) +
      (if last.Skipping? then [last.skip]
       else if UpdateKey(last.update) in KeysOf(Unique(before)) then [Skip(DuplicateUpdateId, last.path, last.update.updateId)]
       else [])
  }

  function First(us: seq<Update>, n: nat): seq<Update> {
    if |us| <= n then us else us[..n]
  }

  // ----- the simulation -----

  /** The accumulator has seen `done`: it holds the first `limit` unique candidates, and until the
      limit is hit also every skip. */
  ghost predicate Sync(acc: Acc, done: seq<Task>) {
    var us := Unique(done);
    && acc.updates == First(us, acc.limit)
    && acc.seenKeys == KeysOf(acc.updates)
    && (acc.limitHit <==> |us| > acc.limit)
    && (!acc.limitHit ==> acc.skipped == AllSkips(done) && acc.overflow == 0)
  }

  lemma HitStaysHitOnce(acc: Acc, done: seq<Task>, t: Task)
    requires Sync(acc, done) && acc.limitHit
    ensures Sync(acc, done + [t])
  {
  }

  /** Once the limit is hit, whatever follows leaves the updates as they are. */
  lemma {:induction false} HitStaysHit(acc: Acc, done: seq<Task>, more: seq<Task>)
    requires Sync(acc, done) && acc.limitHit
    ensures Sync(acc, done + more)
    decreases |more|
  {
    hide Sync;
    if more == [] {
      assert done + more == done;
    } else {
      var init, t := more[..|more| - 1], more[|more| - 1];
      HitStaysHit(acc, done, init);
      HitStaysHitOnce(acc, done + init, t);
      assert done + more == done + init + [t];
    }
  }

  lemma SkipKeepsSync(acc: Acc, done: seq<Task>, skip: Skip)
    requires Sync(acc, done)
    ensures Sync(PushSkip(acc, skip), done + [Skipping(skip)])
  {
  }

  lemma UpdateKeepsSync(acc: Acc, done: seq<Task>, u: Update, path: string)
    requires Sync(acc, done) && !acc.limitHit
    ensures Sync(PushUpdate(acc, u, path), done + [Emitting(u, path)])
  {
  }

  lemma ItemKeepsSync(acc: Acc, done: seq<Task>, item: Item, path: string)
    requires Sync(acc, done) && !acc.limitHit
    ensures Sync(PushItem(acc, item, path), done + [ItemTask(item, path)])
  {
    match item
    case BadItem(suffix, detail) => SkipKeepsSync(acc, done, Skip(MalformedField, path + suffix, detail));
    case GoodItem(update) => UpdateKeepsSync(acc, done, update, path);
  }

  lemma {:induction false} ItemsKeepSync(acc: Acc, done: seq<Task>, path: string, list: ItemList, i: nat)
    requires Sync(acc, done) && i <= |list.items|
    ensures Sync(PushItems(acc, path, list, i), done + ListTasks(path, list, i))
    decreases |list.items| - i
  {
    hide Sync, PushItem, ItemPath;
    if i == |list.items| {
      assert done + ListTasks(path, list, i) == done;
    } else {
      var t := ItemTask(list.items[i], ItemPath(path, list.name, i));
      var next := if acc.limitHit then Overflow(acc) else PushItem(acc, list.items[i], ItemPath(path, list.name, i));
      if acc.limitHit {
        HitStaysHit(acc, done, [t]);
        OverflowKeepsSync(acc, done + [t]);
      } else {
        ItemKeepsSync(acc, done, list.items[i], ItemPath(path, list.name, i));
      }
      ItemsKeepSync(next, done + [t], path, list, i + 1);
      assert done + ListTasks(path, list, i) == done + [t] + ListTasks(path, list, i + 1);
    }
  }

  lemma OverflowKeepsSync(acc: Acc, done: seq<Task>)
    requires Sync(acc, done) && acc.limitHit
    ensures Sync(Overflow(acc), done)
  {
  }

  lemma {:induction false} ListsKeepSync(acc: Acc, done: seq<Task>, path: string, lists: seq<ItemList>)
    requires Sync(acc, done)
    ensures Sync(PushLists(acc, path, lists), done + ListsTasks(path, lists))
    decreases |lists|
  {
    hide Sync, PushItems, ListTasks;
    if lists == [] {
      assert done + ListsTasks(path, lists) == done;
    } else {
      ItemsKeepSync(acc, done, path, lists[0], 0);
      ListsKeepSync(PushItems(acc, path, lists[0], 0), done + ListTasks(path, lists[0], 0), path, lists[1..]);
      assert done + ListsTasks(path, lists) == done + ListTasks(path, lists[0], 0) + ListsTasks(path, lists[1..]);
    }
  }

  lemma ChangeKeepsSync(acc: Acc, done: seq<Task>, wabaId: string, change: Change, path: string)
    requires Sync(acc, done) && !acc.limitHit
    ensures Sync(NormalizeChange(acc, wabaId, change, path), done + ChangeTasks(wabaId, change, path))
  {
    match change
    case Refused(reason, suffix, detail) => SkipKeepsSync(acc, done, Skip(reason, path + suffix, detail));
    case Synthetic(kind, field, content) => UpdateKeepsSync(acc, done, Update(kind, SyntheticId(kind, wabaId, field, path), content), path);
    case Single(suffix, item) => ItemKeepsSync(acc, done, item, path + suffix);
    case Lists(lists) => ListsKeepSync(acc, done, path, lists);
  }

  lemma {:induction false} ChangesKeepSync(acc: Acc, done: seq<Task>, wabaId: string, changes: seq<Change>, e: nat, c: nat)
    requires Sync(acc, done) && c <= |changes|
    ensures Sync(PushChanges(acc, wabaId, changes, e, c), done + ChangesTasks(wabaId, changes, e, c))
    decreases |changes| - c
  {
    hide Sync, NormalizeChange, ChangeTasks;
    if c == |changes| {
      assert done + ChangesTasks(wabaId, changes, e, c) == done;
    } else {
      var ts := ChangeTasks(wabaId, changes[c], ChangePath(e, c));
      var next := if acc.limitHit then Overflow(acc) else NormalizeChange(acc, wabaId, changes[c], ChangePath(e, c));
      if acc.limitHit {
        HitStaysHit(acc, done, ts);
        OverflowKeepsSync(acc, done + ts);
      } else {
        ChangeKeepsSync(acc, done, wabaId, changes[c], ChangePath(e, c));
      }
      ChangesKeepSync(next, done + ts, wabaId, changes, e, c + 1);
      assert done + ChangesTasks(wabaId, changes, e, c) == done + ts + ChangesTasks(wabaId, changes, e, c + 1);
    }
  }

  lemma EntryKeepsSync(acc: Acc, done: seq<Task>, entry: Entry, e: nat)
    requires Sync(acc, done)
    ensures Sync(PushEntry(acc, entry, e), done + EntryTasks(entry, e))
  {
    hide Sync, EntryPath;
    match entry
    case BadEntry(detail) => SkipKeepsSync(acc, done, Skip(MalformedEntry, EntryPath(e), detail));
    case GoodEntry(wabaId, changes) => ChangesKeepSync(acc, done, wabaId, changes, e, 0);
  }

  lemma {:induction false} EntriesKeepSync(acc: Acc, done: seq<Task>, entries: seq<Entry>, e: nat)
    requires Sync(acc, done) && e <= |entries|
    ensures Sync(PushEntries(acc, entries, e), done + Tasks(entries, e))
    decreases |entries| - e
  {
    hide Sync, PushEntry, EntryTasks;
    if e == |entries| {
      assert done + Tasks(entries, e) == done;
    } else {
      var ts := EntryTasks(entries[e], e);
      EntryKeepsSync(acc, done, entries[e], e);
      EntriesKeepSync(PushEntry(acc, entries[e], e), done + ts, entries, e + 1);
      assert done + Tasks(entries, e) == done + ts + Tasks(entries, e + 1);
    }
  }

  // ----- the results -----

  /** The run with a limit is dedupe-then-take: its updates are the first `limit` of the unique
      candidates, limitError is present exactly when there are more, and without it the skips are
      all the skips of the envelope. */
  lemma {:induction false} SoftTruncation(entries: seq<Entry>, limit: nat)
    ensures var out, tasks := Normalize(entries, limit), Tasks(entries, 0);
            && out.updates == First(Unique(tasks), limit)
            && (out.limitError.Some? <==> |Unique(tasks)| > limit)
            && (out.limitError.None? ==> out.skipped == AllSkips(tasks))
  {
    EntriesKeepSync(Fresh(limit), [], entries, 0);
    assert [] + Tasks(entries, 0) == Tasks(entries, 0);
    LimitNeverChanges(Fresh(limit), entries, 0);
  }

  /** Against a run whose limit is never hit: the updates are a prefix of its updates, the limit error
      tells exactly whether any are missing, and if none are, the skips agree too. */
  lemma TruncationIsAPrefix(entries: seq<Entry>, limit: nat, ample: nat)
    requires Normalize(entries, ample).limitError.None?
    ensures var short, full := Normalize(entries, limit), Normalize(entries, ample);
            && short.updates == First(full.updates, limit)
            && (short.limitError.Some? <==> |full.updates| > limit)
            && (short.limitError.None? ==> short == full)
  {
    SoftTruncation(entries, limit);
    SoftTruncation(entries, ample);
  }

  predicate SameIdentity(a: Update, b: Update) {
    a.kind == b.kind && a.updateId == b.updateId
  }

  /** The key the accumulator remembers stands for exactly the pair (kind, id). */
  lemma KeyIsIdentity(a: Update, b: Update)
    ensures UpdateKey(a) == UpdateKey(b) <==> SameIdentity(a, b)
  {
    if UpdateKey(a) == UpdateKey(b) {
      KindNameHasNoNul(a.kind);
      KindNameHasNoNul(b.kind);
      SplitAtFirst(KindName(a.kind), KindName(b.kind), a.updateId, b.updateId, NUL);
      KindNamesDiffer(a.kind, b.kind);
    }
  }

  /** A well-formed candidate with no earlier one of the same kind and id. */
  predicate IsFirst(tasks: seq<Task>, i: nat)
    requires i < |tasks|
  {
    tasks[i].Emitting? &&
    forall j :: 0 <= j < i && tasks[j].Emitting? ==> !SameIdentity(tasks[j].update, tasks[i].update)
  }

  function Identities(tasks: seq<Task>): set<string> {
    set t | t in tasks && t.Emitting? :: UpdateKey(t.update)
  }

  lemma KeysOfAppend(us: seq<Update>, u: Update)
    ensures KeysOf(us + [u]) == KeysOf(us) + {UpdateKey(u)}
  {
  }

  lemma IdentitiesAppend(tasks: seq<Task>, t: Task)
    ensures Identities(tasks + [t]) == Identities(tasks) + (if t.Emitting? then {UpdateKey(t.update)} else {})
  {
  }

  lemma {:induction false} UniqueCoversIdentities(tasks: seq<Task>)
    ensures KeysOf(Unique(tasks)) == Identities(tasks)
  {
    if tasks != [] {
      var before, last := tasks[..|tasks| - 1], tasks[|tasks| - 1];
      UniqueCoversIdentities(before);
      assert tasks == before + [last];
      IdentitiesAppend(before, last);
      if last.Emitting? {
        KeysOfAppend(Unique(before), last.update);
      }
    }
  }

  /** `places` are the positions of the first candidates, in order, and `us` their updates. */
  ghost predicate AreFirsts(tasks: seq<Task>, places: seq<nat>, us: seq<Update>) {
    && |places| == |us|
    && (forall p :: 0 <= p < |places| ==> places[p] < |tasks| && IsFirst(tasks, places[p]) && tasks[places[p]].update == us[p])
    && (forall p, q :: 0 <= p < q < |places| ==> places[p] < places[q])
    && (forall i :: 0 <= i < |tasks| && IsFirst(tasks, i) ==> i in places)
  }

  lemma AreFirstsExtends(tasks: seq<Task>, places: seq<nat>, us: seq<Update>)
    requires tasks != [] && AreFirsts(tasks[..|tasks| - 1], places, us)
    ensures IsFirst(tasks, |tasks| - 1) ==> AreFirsts(tasks, places + [|tasks| - 1], us + [tasks[|tasks| - 1].update])
    ensures !IsFirst(tasks, |tasks| - 1) ==> AreFirsts(tasks, places, us)
  {
    var n := |tasks| - 1;
    FirstsOfPrefix(tasks, n);
    forall i | 0 <= i < n && IsFirst(tasks, i) ensures i in places && i in places + [n] {
      assert IsFirst(tasks[..n], i);
    }
    assert n in places + [n];
  }

  /** The candidates emitted are, in document order, exactly those that are first with their kind and
      id; so no pair is emitted twice. */
  lemma {:induction false} UniqueTakesTheFirsts(tasks: seq<Task>) returns (places: seq<nat>)
    ensures AreFirsts(tasks, places, Unique(tasks))
  {
    if tasks == [] {
      places := [];
    } else {
      hide AreFirsts, IsFirst, Identities;
      var n := |tasks| - 1;
      var before := tasks[..n];
      places := UniqueTakesTheFirsts(before);
      UniqueCoversIdentities(before);
      AreFirstsExtends(tasks, places, Unique(before));
      if tasks[n].Emitting? {
        LastIsFirst(tasks, n);
        if UpdateKey(tasks[n].update) !in KeysOf(Unique(before)) {
          places := places + [n];
        }
      } else {
        SkipIsNotFirst(tasks, n);
      }
    }
  }

  lemma SkipIsNotFirst(tasks: seq<Task>, n: nat)
    requires n < |tasks| && tasks[n].Skipping?
    ensures !IsFirst(tasks, n)
  {
  }

  lemma FirstsOfPrefix(tasks: seq<Task>, n: nat)
    requires n <= |tasks|
    ensures forall i :: 0 <= i < n ==> (IsFirst(tasks, i) <==> IsFirst(tasks[..n], i))
  {
  }

  lemma LastIsFirst(tasks: seq<Task>, n: nat)
    requires n < |tasks| && tasks[n].Emitting?
    ensures IsFirst(tasks, n) <==> UpdateKey(tasks[n].update) !in Identities(tasks[..n])
  {
    forall j | 0 <= j < n && tasks[j].Emitting?
      ensures UpdateKey(tasks[j].update) in Identities(tasks[..n])
      ensures SameIdentity(tasks[j].update, tasks[n].update) <==> UpdateKey(tasks[j].update) == UpdateKey(tasks[n].update)
    {
      assert tasks[..n][j] == tasks[j];
      KeyIsIdentity(tasks[j].update, tasks[n].update);
    }
    if UpdateKey(tasks[n].update) in Identities(tasks[..n]) {
      var t :| t in tasks[..n] && t.Emitting? && UpdateKey(t.update) == UpdateKey(tasks[n].update);
      var j :| 0 <= j < n && tasks[..n][j] == t;
      assert tasks[j] == t;
    }
  }

  lemma {:induction false} LimitNeverChanges(acc: Acc, entries: seq<Entry>, e: nat)
    requires e <= |entries|
    ensures PushEntries(acc, entries, e).limit == acc.limit
    decreases |entries| - e
  {
    if e < |entries| {
      if entries[e].GoodEntry? {
        ChangesKeepLimit(acc, entries[e].wabaId, entries[e].changes, e, 0);
      }
      LimitNeverChanges(PushEntry(acc, entries[e], e), entries, e + 1);
    }
  }

  lemma {:induction false} ChangesKeepLimit(acc: Acc, wabaId: string, changes: seq<Change>, e: nat, c: nat)
    requires c <= |changes|
    ensures PushChanges(acc, wabaId, changes, e, c).limit == acc.limit
    decreases |changes| - c
  {
    hide ChangePath;
    if c < |changes| {
      var next := if acc.limitHit then Overflow(acc) else NormalizeChange(acc, wabaId, changes[c], ChangePath(e, c));
      if changes[c].Lists? {
        ListsConserve(acc, ChangePath(e, c), changes[c].lists);
      }
      ChangesKeepLimit(next, wabaId, changes, e, c + 1);
    }
  }

  // ----- nothing is lost and nothing invented -----

  /** What becomes of an array element at this path. */
  predicate ItemAt(item: Item, path: string, t: Task) {
    match item
    case BadItem(suffix, detail) => t == Skipping(Skip(MalformedField, path + suffix, detail))
    case GoodItem(update) => t == Emitting(update, path)
  }

  /** The change holds this: a refusal, an update under an id derived from its path, its only item, or an
      element of one of its arrays. */
  ghost predicate ChangeHolds(wabaId: string, change: Change, path: string, t: Task) {
    match change
    case Refused(reason, suffix, detail) => t == Skipping(Skip(reason, path + suffix, detail))
    case Synthetic(kind, field, content) => t == Emitting(Update(kind, SyntheticId(kind, wabaId, field, path), content), path)
    case Single(suffix, item) => ItemAt(item, path + suffix, t)
    case Lists(lists) => exists l: nat, i: nat :: InList(lists, path, l, i, t)
  }

  predicate InList(lists: seq<ItemList>, path: string, l: nat, i: nat, t: Task) {
    && l < |lists| && i < |lists[l].items|
    && ItemAt(lists[l].items[i], path + ".value." + lists[l].name + "[" + Decimal(i) + "]", t)
  }

  /** The envelope holds this, in its entry `e` and, if that can be read, in its change `c`. */
  ghost predicate EnvelopeHolds(entries: seq<Entry>, e: nat, c: nat, t: Task) {
    e < |entries| &&
    match entries[e]
    case BadEntry(detail) => t == Skipping(Skip(MalformedEntry, "entry[" + Decimal(e) + "]", detail))
    case GoodEntry(wabaId, changes) =>
      c < |changes| && ChangeHolds(wabaId, changes[c], "entry[" + Decimal(e) + "].changes[" + Decimal(c) + "]", t)
  }

  lemma ItemIsAt(item: Item, path: string, t: Task)
    ensures t == ItemTask(item, path) <==> ItemAt(item, path, t)
  {
  }

  lemma {:induction false} PathsSpelled(e: nat, c: nat, path: string, name: string, i: nat)
    ensures EntryPath(e) == "entry[" + Decimal(e) + "]"
    ensures ChangePath(e, c) == "entry[" + Decimal(e) + "].changes[" + Decimal(c) + "]"
    ensures ItemPath(path, name, i) == path + ".value." + name + "[" + Decimal(i) + "]"
  {
    hide Decimal;
  }

  lemma {:induction false} ListHolds(path: string, list: ItemList, i: nat, t: Task)
    ensures t in ListTasks(path, list, i) <==> exists j: nat :: i <= j < |list.items| && t == ItemTask(list.items[j], ItemPath(path, list.name, j))
    decreases |list.items| - i
  {
    hide ItemPath, ItemTask;
    if i < |list.items| {
      ListHolds(path, list, i + 1, t);
    }
  }

  lemma {:induction false} ListsHold(path: string, lists: seq<ItemList>, t: Task)
    ensures t in ListsTasks(path, lists) <==> exists l: nat, i: nat :: InList(lists, path, l, i, t)
    decreases |lists|
  {
    hide ListTasks;
    if lists != [] {
      var rest := lists[1..];
      FirstListHolds(path, lists, t);
      ListsHold(path, rest, t);
      forall l: nat, i: nat ensures l > 0 ==> (InList(lists, path, l, i, t) <==> InList(rest, path, l - 1, i, t)) {
        assert l > 0 && l < |lists| ==> lists[l] == rest[l - 1];
      }
      hide InList;
      if l: nat, i: nat :| InList(lists, path, l, i, t) {
        assert l > 0 ==> InList(rest, path, l - 1, i, t);
      }
      if l: nat, i: nat :| InList(rest, path, l, i, t) {
        assert InList(lists, path, l + 1, i, t);
      }
    }
  }

  lemma {:induction false} FirstListHolds(path: string, lists: seq<ItemList>, t: Task)
    requires lists != []
    ensures t in ListTasks(path, lists[0], 0) <==> exists i: nat :: InList(lists, path, 0, i, t)
  {
    var list := lists[0];
    ListHolds(path, list, 0, t);
    forall i: nat | i < |list.items|
      ensures InList(lists, path, 0, i, t) <==> t == ItemTask(list.items[i], ItemPath(path, list.name, i))
    {
      PathsSpelled(0, 0, path, list.name, i);
      ItemIsAt(list.items[i], ItemPath(path, list.name, i), t);
    }
    assert forall i: nat :: InList(lists, path, 0, i, t) ==> i < |list.items|;
    hide ListTasks, InList, ItemTask, ItemPath;
  }

  lemma ChangeTasksHold(wabaId: string, change: Change, path: string, t: Task)
    ensures t in ChangeTasks(wabaId, change, path) <==> ChangeHolds(wabaId, change, path, t)
  {
    hide SyntheticId;
    match change
    case Lists(lists) => ListsHold(path, lists, t);
    case Single(suffix, item) => ItemIsAt(item, path + suffix, t);
    case _ =>
  }

  lemma {:induction false} ChangesHold(wabaId: string, changes: seq<Change>, e: nat, c: nat, t: Task)
    ensures t in ChangesTasks(wabaId, changes, e, c) <==>
            exists d: nat :: c <= d < |changes| && ChangeHolds(wabaId, changes[d], ChangePath(e, d), t)
    decreases |changes| - c
  {
    hide ChangeTasks, ChangePath, ChangeHolds;
    if c < |changes| {
      ChangesHold(wabaId, changes, e, c + 1, t);
      ChangeTasksHold(wabaId, changes[c], ChangePath(e, c), t);
    }
  }

  lemma EntryHolds(entries: seq<Entry>, e: nat, t: Task)
    requires e < |entries|
    ensures t in EntryTasks(entries[e], e) <==> exists c: nat :: EnvelopeHolds(entries, e, c, t)
  {
    hide ChangeHolds, ChangePath, EntryPath, Decimal;
    match entries[e]
    case BadEntry(detail) =>
      PathsSpelled(e, 0, "", "", 0);
      assert EnvelopeHolds(entries, e, 0, t) <==> t in EntryTasks(entries[e], e);
    case GoodEntry(wabaId, changes) =>
      ChangesHold(wabaId, changes, e, 0, t);
      forall c: nat ensures EnvelopeHolds(entries, e, c, t) <==> c < |changes| && ChangeHolds(wabaId, changes[c], ChangePath(e, c), t) {
        PathsSpelled(e, c, "", "", 0);
      }
      hide EnvelopeHolds, ChangesTasks;
  }

  lemma {:induction false} EntriesHold(entries: seq<Entry>, e: nat, t: Task)
    ensures t in Tasks(entries, e) <==> exists d: nat, c: nat :: e <= d && EnvelopeHolds(entries, d, c, t)
    decreases |entries| - e
  {
    hide EntryTasks, ChangeHolds, Decimal;
    if e < |entries| {
      EntriesHold(entries, e + 1, t);
      EntryHolds(entries, e, t);
      hide EnvelopeHolds;
    }
  }

  /** The skip reports this: a malformed part, or a repeated update, at its place. */
  predicate Reports(skip: Skip, t: Task) {
    match t
    case Skipping(s) => skip == s
    case Emitting(u, path) => skip == Skip(DuplicateUpdateId, path, u.updateId)
  }

  /** What an envelope holds, wherever it stands, is in the result unless the limit was hit: an update itself
      or an earlier one of its kind and id, and every malformed part as a skip at its path. And there is
      nothing in the result that the envelope does not hold. */
  lemma {:induction false} NothingIsLost(entries: seq<Entry>, limit: nat, e: nat, c: nat, t: Task)
    requires EnvelopeHolds(entries, e, c, t) && Normalize(entries, limit).limitError.None?
    ensures var out := Normalize(entries, limit);
            match t
            case Skipping(skip) => skip in out.skipped
            case Emitting(u, path) =>
              && (exists v :: v in out.updates && SameIdentity(v, u))
              && (u in out.updates || Skip(DuplicateUpdateId, path, u.updateId) in out.skipped)
  {
    var tasks := Tasks(entries, 0);
    SoftTruncation(entries, limit);
    EntriesHold(entries, 0, t);
    UniqueCoversIdentities(tasks);
    EachIsSettled(tasks, t);
    hide Normalize, EnvelopeHolds, Tasks, AllSkips;
    if t.Emitting? {
      assert UpdateKey(t.update) in Identities(tasks);
      var v :| v in Unique(tasks) && UpdateKey(v) == UpdateKey(t.update);
      KeyIsIdentity(v, t.update);
    }
  }

  lemma {:induction false} EachIsSettled(tasks: seq<Task>, t: Task)
    requires t in tasks
    ensures t.Skipping? ==> t.skip in AllSkips(tasks)
    ensures t.Emitting? ==> t.update in Unique(tasks) || Skip(DuplicateUpdateId, t.path, t.update.updateId) in AllSkips(tasks)
  {
    var n := |tasks| - 1;
    assert tasks == tasks[..n] + [tasks[n]];
    if t in tasks[..n] {
      EachIsSettled(tasks[..n], t);
    }
  }

  /** Whatever the limit: each update and each skip of the result is of something the envelope holds. */
  lemma {:induction false} NothingIsInvented(entries: seq<Entry>, limit: nat, u: Update, skip: Skip)
    ensures u in Normalize(entries, limit).updates ==>
              exists e: nat, c: nat, path :: EnvelopeHolds(entries, e, c, Emitting(u, path))
    ensures skip in Normalize(entries, limit).skipped && Normalize(entries, limit).limitError.None? ==>
              exists e: nat, c: nat, t :: EnvelopeHolds(entries, e, c, t) && Reports(skip, t)
  {
    var tasks := Tasks(entries, 0);
    SoftTruncation(entries, limit);
    hide Normalize, EnvelopeHolds, Tasks, AllSkips, Reports;
    if u in Unique(tasks) {
      var t := UniqueIsHeld(tasks, u);
      EntriesHold(entries, 0, t);
    }
    if skip in AllSkips(tasks) {
      var t := SkipIsHeld(tasks, skip);
      EntriesHold(entries, 0, t);
    }
  }

  lemma {:induction false} UniqueIsHeld(tasks: seq<Task>, u: Update) returns (t: Task)
    requires u in Unique(tasks)
    ensures t in tasks && t.Emitting? && t.update == u
  {
    var n := |tasks| - 1;
    if u in Unique(tasks[..n]) {
      t := UniqueIsHeld(tasks[..n], u);
    } else {
      t := tasks[n];
    }
  }

  lemma {:induction false} SkipIsHeld(tasks: seq<Task>, skip: Skip) returns (t: Task)
    requires skip in AllSkips(tasks)
    ensures t in tasks && Reports(skip, t)
  {
    var n := |tasks| - 1;
    if skip in AllSkips(tasks[..n]) {
      t := SkipIsHeld(tasks[..n], skip);
    } else {
      t := tasks[n];
    }
  }

  // ----- conservation -----

  /** Everything the accumulator has been given: added, skipped or overflowed. */
  function Accounted(acc: Acc): nat {
    |acc.updates| + |acc.skipped| + acc.overflow
  }

  function ItemCount(lists: seq<ItemList>): nat {
    if lists == [] then 0 else |lists[0].items| + ItemCount(lists[1..])
  }

  lemma {:induction false} ItemsConserve(acc: Acc, path: string, list: ItemList, i: nat)
    requires i <= |list.items|
    ensures var out := PushItems(acc, path, list, i);
            Accounted(out) == Accounted(acc) + |list.items| - i && out.limit == acc.limit
    decreases |list.items| - i
  {
    hide ItemPath, UpdateKey;
    if i < |list.items| {
      var next := if acc.limitHit then Overflow(acc) else PushItem(acc, list.items[i], ItemPath(path, list.name, i));
      ItemsConserve(next, path, list, i + 1);
    }
  }

  /** Within a change that is descended into, every item is accounted for exactly once: as an update,
      a skip, or an overflow. */
  lemma {:induction false} ListsConserve(acc: Acc, path: string, lists: seq<ItemList>)
    ensures var out := PushLists(acc, path, lists);
            Accounted(out) == Accounted(acc) + ItemCount(lists) && out.limit == acc.limit
    decreases |lists|
  {
    if lists != [] {
      ItemsConserve(acc, path, lists[0], 0);
      ListsConserve(PushItems(acc, path, lists[0], 0), path, lists[1..]);
    }
  }

  // ----- the accumulator object and its loops -----

  class Accumulator {
    const limit: nat
    var updates: seq<Update>
    var skipped: seq<Skip>
    var seenKeys: set<string>
    var overflow: nat
    var limitHit: bool

    ghost function Value(): Acc
      reads this
    {
      Acc(updates, skipped, seenKeys, limit, overflow, limitHit)
    }

    constructor (limit: nat)
      ensures Value() == Fresh(limit)
    {
      this.limit := limit;
      updates, skipped, seenKeys, overflow, limitHit := [], [], {}, 0, false;
    }

    method AddSkip(skip: Skip)
      modifies this
      ensures Value() == PushSkip(old(Value()), skip)
    {
      skipped := skipped + [skip];
    }

    method AddUpdate(update: Update, path: string) returns (added: bool)
      modifies this
      ensures Value() == PushUpdate(old(Value()), update, path)
      ensures added <==> updates == old(updates) + [update]
    {
      var key := UpdateKey(update);
      if key in seenKeys {
        AddSkip(Skip(DuplicateUpdateId, path, update.updateId));
        return false;
      }
      if |updates| >= limit {
        overflow := overflow + 1;
        limitHit := true;
        return false;
      }
      seenKeys := seenKeys + {key};
      updates := updates + [update];
      return true;
    }

    method AddItem(item: Item, path: string)
      modifies this
      ensures Value() == PushItem(old(Value()), item, path)
    {
      match item
      case BadItem(suffix, detail) => AddSkip(Skip(MalformedField, path + suffix, detail));
      case GoodItem(update) => var added := AddUpdate(update, path);
    }

    method AddItems(path: string, list: ItemList)
      modifies this
      ensures Value() == PushItems(old(Value()), path, list, 0)
    {
      for i := 0 to |list.items|
        invariant PushItems(Value(), path, list, i) == PushItems(old(Value()), path, list, 0)
      {
        if limitHit {
          overflow := overflow + 1;
          continue;
        }
        AddItem(list.items[i], ItemPath(path, list.name, i));
      }
    }

    method AddChange(wabaId: string, change: Change, path: string)
      modifies this
      ensures Value() == NormalizeChange(old(Value()), wabaId, change, path)
    {
      match change
      case Refused(reason, suffix, detail) => AddSkip(Skip(reason, path + suffix, detail));
      case Synthetic(kind, field, content) =>
        var added := AddUpdate(Update(kind, SyntheticId(kind, wabaId, field, path), content), path);
      case Single(suffix, item) => AddItem(item, path + suffix);
      case Lists(lists) =>
        for i := 0 to |lists|
          invariant PushLists(Value(), path, lists[i..]) == PushLists(old(Value()), path, lists)
        {
          assert lists[i..][1..] == lists[i + 1..];
          AddItems(path, lists[i]);
        }
    }

    method AddChanges(wabaId: string, changes: seq<Change>, e: nat)
      modifies this
      ensures Value() == PushChanges(old(Value()), wabaId, changes, e, 0)
    {
      for c := 0 to |changes|
        invariant PushChanges(Value(), wabaId, changes, e, c) == PushChanges(old(Value()), wabaId, changes, e, 0)
      {
        if limitHit {
          overflow := overflow + 1;
          continue;
        }
        AddChange(wabaId, changes[c], ChangePath(e, c));
      }
    }
  }

  method NormalizeEnvelope(entries: seq<Entry>, limit: nat) returns (out: Normalized)
    ensures out == Normalize(entries, limit)
  {
    var acc := new Accumulator(limit);
    for e := 0 to |entries|
      invariant fresh(acc) && PushEntries(acc.Value(), entries, e) == PushEntries(Fresh(limit), entries, 0)
    {
      match entries[e]
      case BadEntry(detail) => acc.AddSkip(Skip(MalformedEntry, EntryPath(e), detail));
      case GoodEntry(wabaId, changes) => acc.AddChanges(wabaId, changes, e);
    }
    out := Normalized(acc.updates, acc.skipped, if acc.limitHit then Some(|acc.updates| + acc.overflow) else None);
  }
}
