/**
 * The merged run list of `src/recertia/app/run_listing.py`.
 *
 * Three sources hold rows of the same runs: the in-memory records of the process, the
 * checkpoint table and the registry table. A page is cut out of them with bounded keyset
 * queries, a merge, and a floor that stops the registry scan early. The module proves that
 * a page is the slice one would cut out of a single sorted list with one row per run.
 */
module RunListing {
  import opened Prelude

  type RunId = string

  // ----- rows and their order

  /** A stored creation date. The empty text is `Undated`; time is microseconds from year 1, UTC. */
  datatype Stamp = Undated | At(micros: nat)

  const MICROS_PER_SECOND: nat := 1_000_000
  const NO_DATE: nat := 0

  datatype Key = Key(dated: bool, at: nat, id: RunId)

  /** One listed row. `body` stands for the columns the list only copies. */
  datatype Row = Row(id: RunId, created: Stamp, taskClass: Option<string>, terminal: Option<string>, body: string)

  function RunKey(created: Stamp, id: RunId): Key {
    match created
    case Undated => Key(false, NO_DATE, id)
    case At(t) => Key(true, t, id)
  }

  function KeyOf(r: Row): Key {
    RunKey(r.created, r.id)
  }

  predicate KeyLess(a: Key, b: Key) {
    if a.dated != b.dated then b.dated
    else if a.at != b.at then a.at < b.at
    else TextLess(a.id, b.id)
  }

  lemma KeyOrder(a: Key, b: Key)
    ensures KeyLess(a, b) || KeyLess(b, a) || a == b
    ensures !(KeyLess(a, b) && KeyLess(b, a))
    ensures a == b ==> !KeyLess(a, b)
  {
    TextTrichotomy(a.id, b.id);
  }

  lemma KeyTransitive(a: Key, b: Key, c: Key)
    requires KeyLess(a, b) && KeyLess(b, c)
    ensures KeyLess(a, c)
  {
    if a.dated == b.dated == c.dated && a.at == b.at == c.at {
      TextTransitive(a.id, b.id, c.id);
    }
  }

  /** The run key is a strict total order in which undated runs come below all dated ones, and dates before ids. */
  lemma KeysAreOrdered(a: Key, b: Key, c: Key)
    ensures KeyLess(a, b) || KeyLess(b, a) || a == b
    ensures !(KeyLess(a, b) && KeyLess(b, a)) && !KeyLess(a, a)
    ensures KeyLess(a, b) && KeyLess(b, c) ==> KeyLess(a, c)
    ensures forall id, other, t: nat :: KeyLess(RunKey(Undated, id), RunKey(At(t), other))
    ensures forall id, other, t: nat, u: nat :: t < u ==> KeyLess(RunKey(At(t), id), RunKey(At(u), other))
  {
    KeyOrder(a, b);
    KeyOrder(a, a);
    if KeyLess(a, b) && KeyLess(b, c) { KeyTransitive(a, b, c); }
  }

  /** Strictly descending keys: the order of the list and of both table indexes. */
  ghost predicate Sorted(s: seq<Row>) {
    forall i, j :: 0 <= i < j < |s| ==> KeyLess(KeyOf(s[j]), KeyOf(s[i]))
  }

  ghost predicate DistinctIds(s: seq<Row>) {
    forall i, j :: 0 <= i < j < |s| ==> s[i].id != s[j].id
  }

  /**
   * A sorted list whose rows all come from `y`, and which leaves out only rows of `y` below
   * all of its own, is a prefix of `y`.
   */
  lemma {:induction false} SortedPrefix(x: seq<Row>, y: seq<Row>)
    requires Sorted(x) && Sorted(y)
    requires forall e :: e in x ==> e in y
    requires forall e, k :: e in y && e !in x && k in x ==> KeyLess(KeyOf(e), KeyOf(k))
    ensures x <= y
  {
    if x != [] {
      HeadsAgree(x, y);
      forall e | e in x[1..] ensures e in y[1..] {
        TailOnly(x, e);
      }
      forall e, k | e in y[1..] && e !in x[1..] && k in x[1..] ensures KeyLess(KeyOf(e), KeyOf(k)) {
        TailOnly(y, e);
      }
      SortedPrefix(x[1..], y[1..]);
      assert x == [x[0]] + x[1..] && y == [y[0]] + y[1..];
    }
  }

  /** The head of a sorted list is above all of its tail. */
  lemma TailOnly(s: seq<Row>, e: Row)
    requires Sorted(s) && s != [] && e in s[1..]
    ensures e in s && e != s[0] && KeyLess(KeyOf(e), KeyOf(s[0]))
  {
    var i :| 0 <= i < |s[1..]| && s[1..][i] == e;
    assert s[i + 1] == e;
    KeyOrder(KeyOf(e), KeyOf(s[0]));
  }

  lemma HeadsAgree(x: seq<Row>, y: seq<Row>)
    requires Sorted(x) && Sorted(y) && x != []
    requires forall e :: e in x ==> e in y
    requires forall e, k :: e in y && e !in x && k in x ==> KeyLess(KeyOf(e), KeyOf(k))
    ensures y != [] && x[0] == y[0]
  {
    assert x[0] in x && x[0] in y && y[0] in y;
    if x[0] != y[0] {
      assert x[0] in y[1..];
      TailOnly(y, x[0]);
      if y[0] in x { TailOnly(x, y[0]); }
      KeyOrder(KeyOf(x[0]), KeyOf(y[0]));
      assert false;
    }
  }

  /** Two sorted lists with the same rows are the same list. */
  lemma SortedUnique(x: seq<Row>, y: seq<Row>)
    requires Sorted(x) && Sorted(y)
    requires forall e :: e in x <==> e in y
    ensures x == y
  {
    SortedPrefix(x, y);
    SortedPrefix(y, x);
  }

  // ----- library calls: list.sort, heapq.merge, islice

  function Take(s: seq<Row>, n: nat): seq<Row> {
    if |s| <= n then s else s[..n]
  }

  function Insert(r: Row, s: seq<Row>): (out: seq<Row>) {
    if s == [] || KeyLess(KeyOf(s[0]), KeyOf(r)) then [r] + s else [s[0]] + Insert(r, s[1..])
  }

  function SortDescending(s: seq<Row>): seq<Row> {
    if s == [] then [] else Insert(s[0], SortDescending(s[1..]))
  }

  function Merge(a: seq<Row>, b: seq<Row>): seq<Row>
    decreases |a| + |b|
  {
    if a == [] then b
    else if b == [] then a
    else if KeyLess(KeyOf(a[0]), KeyOf(b[0])) then [b[0]] + Merge(a, b[1..])
    else [a[0]] + Merge(a[1..], b)
  }

  lemma SortedCons(r: Row, s: seq<Row>)
    requires Sorted(s)
    requires forall e :: e in s ==> KeyLess(KeyOf(e), KeyOf(r))
    ensures Sorted([r] + s)
  {
    var t := [r] + s;
    forall i, j | 0 <= i < j < |t| ensures KeyLess(KeyOf(t[j]), KeyOf(t[i])) {
      if i > 0 {
        assert t[i] == s[i - 1] && t[j] == s[j - 1];
      } else {
        assert t[j] == s[j - 1] && t[j] in s;
      }
    }
  }

  lemma {:induction false} InsertSorted(r: Row, s: seq<Row>)
    requires Sorted(s)
    requires forall e :: e in s ==> e.id != r.id
    ensures Sorted(Insert(r, s))
    ensures forall e :: e in Insert(r, s) <==> e == r || e in s
  {
    if s == [] {
    } else if KeyLess(KeyOf(s[0]), KeyOf(r)) {
      forall e | e in s ensures KeyLess(KeyOf(e), KeyOf(r)) {
        var i :| 0 <= i < |s| && s[i] == e;
        if i > 0 { KeyTransitive(KeyOf(e), KeyOf(s[0]), KeyOf(r)); }
      }
      SortedCons(r, s);
    } else {
      KeyOrder(KeyOf(s[0]), KeyOf(r));
      InsertSorted(r, s[1..]);
      SortedCons(s[0], Insert(r, s[1..]));
      assert s == [s[0]] + s[1..];
    }
  }

  lemma {:induction false} SortDescendingSorts(s: seq<Row>)
    requires DistinctIds(s)
    ensures Sorted(SortDescending(s))
    ensures forall e :: e in SortDescending(s) <==> e in s
  {
    if s != [] {
      SortDescendingSorts(s[1..]);
      assert s == [s[0]] + s[1..];
      InsertSorted(s[0], SortDescending(s[1..]));
    }
  }

  /** Merging two descending streams of different runs gives the descending stream of both. */
  lemma {:induction false} MergeSorted(a: seq<Row>, b: seq<Row>)
    requires Sorted(a) && Sorted(b)
    requires forall x, y :: x in a && y in b ==> x.id != y.id
    ensures Sorted(Merge(a, b))
    ensures forall e :: e in Merge(a, b) <==> e in a || e in b
    decreases |a| + |b|
  {
    if a != [] && b != [] {
      KeyOrder(KeyOf(a[0]), KeyOf(b[0]));
      assert a == [a[0]] + a[1..] && b == [b[0]] + b[1..];
      if KeyLess(KeyOf(a[0]), KeyOf(b[0])) {
        MergeSorted(a, b[1..]);
        HeadAbove(b, a);
        SortedCons(b[0], Merge(a, b[1..]));
      } else {
        assert a[0].id != b[0].id;
        MergeSorted(a[1..], b);
        HeadAbove(a, b);
        SortedCons(a[0], Merge(a[1..], b));
      }
    }
  }

  lemma HeadAbove(a: seq<Row>, b: seq<Row>)
    requires Sorted(a) && Sorted(b) && a != [] && b != []
    requires KeyLess(KeyOf(b[0]), KeyOf(a[0]))
    ensures forall e :: e in a[1..] || e in b ==> KeyLess(KeyOf(e), KeyOf(a[0]))
  {
    forall e | e in b ensures KeyLess(KeyOf(e), KeyOf(a[0])) {
      var i :| 0 <= i < |b| && b[i] == e;
      if i > 0 { KeyTransitive(KeyOf(e), KeyOf(b[0]), KeyOf(a[0])); }
    }
  }

  // ----- keyset queries

  /** Lower side of a query: everything, the rows up to and including a stamp, or the rows under a key. */
  datatype Before = Anywhere | Through(stamp: Stamp) | Under(key: Key)

  /** Upper side of a query: everything, or the rows over a key. */
  datatype After = Unbounded | Over(key: Key)

  /** `""` is an inactive filter: the code tests `not task_class` and `not terminal`. */
  datatype Filter = Filter(taskClass: string, terminal: string)

  const NO_FILTER := Filter("", "")

  predicate Matches(f: Filter, r: Row) {
    && (f.taskClass != "" ==> r.taskClass == Some(f.taskClass))
    && (f.terminal != "" ==> (if r.terminal.Some? then r.terminal.value else "") == f.terminal)
  }

  predicate StampAtMost(a: Stamp, b: Stamp) {
    a.Undated? || (b.At? && a.micros <= b.micros)
  }

  predicate Within(before: Before, after: After, r: Row) {
    && (match before
        case Anywhere => true
        case Through(stamp) => StampAtMost(r.created, stamp)
        case Under(key) => KeyLess(KeyOf(r), key))
    && (after.Over? ==> KeyLess(after.key, KeyOf(r)))
  }

  /** The rows of a table that a WHERE clause keeps, in index order. */
  function Select(table: seq<Row>, before: Before, after: After, f: Filter): seq<Row> {
    if table == [] then []
    else if Within(before, after, table[0]) && Matches(f, table[0]) then
      [table[0]] + Select(table[1..], before, after, f)
    else Select(table[1..], before, after, f)
  }

  /** `CheckpointStore.list_summaries_page`: a date without a run id keeps the whole second. */
  function ListSummariesPage(table: seq<Row>, limit: nat, beforeAt: Option<Stamp>, beforeId: Option<RunId>,
                             f: Filter): seq<Row> {
    Take(Select(table, SummariesBefore(beforeAt, beforeId), Unbounded, f), limit)
  }

  function SummariesBefore(beforeAt: Option<Stamp>, beforeId: Option<RunId>): Before {
    if beforeAt.Some? && beforeId.Some? then Under(RunKey(beforeAt.value, beforeId.value))
    else if beforeAt.Some? then Through(beforeAt.value)
    else Anywhere
  }

  /** `RunRegistry.list_page`: each bound needs both its date and its run id. */
  function ListPage(table: seq<Row>, limit: nat, beforeAt: Option<Stamp>, beforeId: Option<RunId>,
                    afterAt: Option<Stamp>, afterId: Option<RunId>): seq<Row> {
    Take(Select(table, RegistryBefore(beforeAt, beforeId), RegistryAfter(afterAt, afterId), NO_FILTER), limit)
  }

  function RegistryBefore(beforeAt: Option<Stamp>, beforeId: Option<RunId>): Before {
    if beforeAt.Some? && beforeId.Some? then Under(RunKey(beforeAt.value, beforeId.value)) else Anywhere
  }

  function RegistryAfter(afterAt: Option<Stamp>, afterId: Option<RunId>): After {
    if afterAt.Some? && afterId.Some? then Over(RunKey(afterAt.value, afterId.value)) else Unbounded
  }

  lemma {:induction false} SelectSorted(table: seq<Row>, before: Before, after: After, f: Filter)
    requires Sorted(table)
    ensures Sorted(Select(table, before, after, f))
    ensures forall r :: r in Select(table, before, after, f) <==>
                        r in table && Within(before, after, r) && Matches(f, r)
  {
    if table != [] {
      SelectSorted(table[1..], before, after, f);
      assert table == [table[0]] + table[1..];
      var rest := Select(table[1..], before, after, f);
      SortedCons(table[0], rest);
    }
  }

  /** Restarting a query under the last row read returns exactly the rows not read yet. */
  lemma NextChunk(table: seq<Row>, before: Before, after: After, f: Filter, read: nat)
    requires Sorted(table)
    requires 0 < read <= |Select(table, before, after, f)|
    ensures Select(table, Under(KeyOf(Select(table, before, after, f)[read - 1])), after, f)
            == Select(table, before, after, f)[read..]
  {
    var all := Select(table, before, after, f);
    var last := all[read - 1];
    var next := Select(table, Under(KeyOf(last)), after, f);
    SelectSorted(table, before, after, f);
    SelectSorted(table, Under(KeyOf(last)), after, f);
    assert last in all;
    forall r | r in next ensures r in all[read..] {
      if before.Under? {
        KeyTransitive(KeyOf(r), KeyOf(last), before.key);
      }
      assert r in all;
      var i :| 0 <= i < |all| && all[i] == r;
      if i < read {
        KeyOrder(KeyOf(r), KeyOf(last));
        assert false;
      }
    }
    forall r | r in all[read..] ensures r in next {
      assert r in all;
    }
    SortedUnique(next, all[read..]);
  }

  // ----- the data behind one tenant's list

  datatype Data = Data(memory: seq<Row>, checkpoints: seq<Row>, registry: seq<Row>)

  ghost predicate WholeSeconds(table: seq<Row>) {
    forall r :: r in table && r.created.At? ==> r.created.micros % MICROS_PER_SECOND == 0
  }

  /**
   * What the stores promise: primary keys, indexes in key order, checkpoint dates cut to whole
   * seconds, and no `task_class` or `terminal` on a registry row.
   */
  ghost predicate Valid(d: Data) {
    && DistinctIds(d.memory) && DistinctIds(d.checkpoints) && DistinctIds(d.registry)
    && Sorted(d.checkpoints) && Sorted(d.registry)
    && WholeSeconds(d.checkpoints)
    && forall r :: r in d.registry ==> r.taskClass.None? && r.terminal.None?
  }

  function Ids(rows: seq<Row>): set<RunId> {
    set r | r in rows :: r.id
  }

  /** `get_summaries` and `get_many` for one run id. */
  function Lookup(table: seq<Row>, id: RunId): Option<Row> {
    if table == [] then None
    else if table[0].id == id then Some(table[0])
    else Lookup(table[1..], id)
  }

  lemma {:induction false} LookupNone(table: seq<Row>, id: RunId)
    ensures Lookup(table, id).None? <==> id !in Ids(table)
  {
    if table != [] {
      assert table == [table[0]] + table[1..];
      assert Ids(table) == {table[0].id} + Ids(table[1..]);
      LookupNone(table[1..], id);
    }
  }

  lemma {:induction false} LookupFinds(table: seq<Row>, id: RunId)
    requires DistinctIds(table)
    ensures Lookup(table, id).None? <==> id !in Ids(table)
    ensures forall r :: r in table && r.id == id <==> Lookup(table, id) == Some(r)
  {
    LookupNone(table, id);
    if table != [] {
      LookupFinds(table[1..], id);
      assert table == [table[0]] + table[1..];
      if table[0].id == id {
        forall r | r in table && r.id == id ensures r == table[0] {
          var i :| 0 <= i < |table| && table[i] == r;
        }
      }
    }
  }

  /** The in-memory row of a run, at the position its stored date gives it. */
  function MemoryRow(d: Data, rec: Row): Row {
    var stored := Lookup(d.checkpoints, rec.id);
    var reserved := Lookup(d.registry, rec.id);
    if stored.Some? then rec.(created := stored.value.created)
    else if reserved.Some? then rec.(created := reserved.value.created)
    else rec
  }

  // ----- the reference: one row per run, filtered, sorted

  /** The one row that stands for a run: memory over checkpoint over registry. */
  function RowOf(d: Data, id: RunId): Option<Row> {
    var rec := Lookup(d.memory, id);
    if rec.Some? then Some(MemoryRow(d, rec.value))
    else if Lookup(d.checkpoints, id).Some? then Lookup(d.checkpoints, id)
    else Lookup(d.registry, id)
  }

  ghost predicate Listed(d: Data, f: Filter, r: Row) {
    RowOf(d, r.id) == Some(r) && Matches(f, r)
  }

  /** `l` is the whole list: every listed row exactly once, in strictly descending key order. */
  ghost predicate IsListing(d: Data, f: Filter, l: seq<Row>) {
    Sorted(l) && forall r :: r in l <==> Listed(d, f, r)
  }

  /** What a date is taken from: the checkpoint of the run, else its registry row, else the record itself. */
  ghost predicate DatedBy(d: Data, rec: Row, created: Stamp) {
    && (forall c :: c in d.checkpoints && c.id == rec.id ==> created == c.created)
    && ((forall c :: c in d.checkpoints ==> c.id != rec.id) ==> forall g :: g in d.registry && g.id == rec.id ==> created == g.created)
    && ((forall c :: c in d.checkpoints ==> c.id != rec.id) && (forall g :: g in d.registry ==> g.id != rec.id) ==> created == rec.created)
  }

  /** The row that stands for its run: of the first source that has one, a record with its stored date. */
  ghost predicate StandsForRun(d: Data, r: Row) {
    || (exists rec :: rec in d.memory && rec.id == r.id && r == rec.(created := r.created) && DatedBy(d, rec, r.created))
    || ((forall rec :: rec in d.memory ==> rec.id != r.id) && r in d.checkpoints)
    || ((forall rec :: rec in d.memory ==> rec.id != r.id) && (forall c :: c in d.checkpoints ==> c.id != r.id) && r in d.registry)
  }

  lemma MemoryRowIs(d: Data, rec: Row)
    requires Valid(d)
    ensures MemoryRow(d, rec) == rec.(created := MemoryRow(d, rec).created) && DatedBy(d, rec, MemoryRow(d, rec).created)
    ensures forall created :: DatedBy(d, rec, created) ==> created == MemoryRow(d, rec).created
  {
    LookupFinds(d.checkpoints, rec.id);
    LookupFinds(d.registry, rec.id);
  }

  /** A row is in the listing iff it matches the filter and stands for its run. */
  lemma ListedRowsStandForRuns(d: Data, f: Filter, l: seq<Row>, r: Row)
    requires Valid(d) && IsListing(d, f, l)
    ensures r in l <==> (StandsForRun(d, r)
                         && (f.taskClass == "" || r.taskClass == Some(f.taskClass))
                         && (f.terminal == "" || r.terminal == Some(f.terminal)))
  {
    LookupFinds(d.memory, r.id);
    LookupFinds(d.checkpoints, r.id);
    LookupFinds(d.registry, r.id);
    if Lookup(d.memory, r.id).Some? { MemoryRowIs(d, Lookup(d.memory, r.id).value); }
  }

  lemma ListingUnique(d: Data, f: Filter, x: seq<Row>, y: seq<Row>)
    requires IsListing(d, f, x) && IsListing(d, f, y)
    ensures x == y
  {
    SortedUnique(x, y);
  }

  // ----- the three streams

  /** Where a run list stopped: `RunPosition`, the content of a cursor. */
  datatype Position = Position(created: Stamp, id: RunId)

  function Cut(boundary: Option<Position>): Before {
    if boundary.None? then Anywhere else Under(RunKey(boundary.value.created, boundary.value.id))
  }

  function MatchingMemory(d: Data, records: seq<Row>, cut: Before, f: Filter): seq<Row> {
    if records == [] then []
    else
      var rec := records[|records| - 1];
      var row := MemoryRow(d, rec);
      var rest := MatchingMemory(d, records[..|records| - 1], cut, f);
      if Matches(f, rec) && Within(cut, Unbounded, row) then rest + [row] else rest
  }

  function Unskipped(rows: seq<Row>, skip: set<RunId>): seq<Row> {
    if rows == [] then []
    else
      var rest := Unskipped(rows[..|rows| - 1], skip);
      if rows[|rows| - 1].id in skip then rest else rest + [rows[|rows| - 1]]
  }

  function MemoryEntries(d: Data, cut: Before, f: Filter): seq<Row> {
    SortDescending(MatchingMemory(d, d.memory, cut, f))
  }

  function CheckpointEntries(d: Data, cut: Before, f: Filter): seq<Row> {
    Unskipped(Select(d.checkpoints, cut, Unbounded, f), Ids(d.memory))
  }

  function RegistryEntries(d: Data, cut: Before, floor: After, f: Filter): seq<Row> {
    if f != NO_FILTER then []
    else Unskipped(Select(d.registry, cut, floor, NO_FILTER), Ids(d.memory) + Ids(d.checkpoints))
  }

  method MemoryStream(d: Data, boundary: Option<Position>, f: Filter) returns (keyed: seq<Row>)
    ensures keyed == MemoryEntries(d, Cut(boundary), f)
  {
    keyed := [];
    for i := 0 to |d.memory|
      invariant keyed == MatchingMemory(d, d.memory[..i], Cut(boundary), f)
    {
      assert d.memory[..i + 1][..i] == d.memory[..i];
      var rec := d.memory[i];
      if Matches(f, rec) {
        var row := MemoryRow(d, rec);
        if boundary.None? || KeyLess(KeyOf(row), RunKey(boundary.value.created, boundary.value.id)) {
          keyed := keyed + [row];
        }
      }
    }
    assert d.memory[..|d.memory|] == d.memory;
    keyed := SortDescending(keyed);
  }

  /** The checkpoint query bounds of a cursor mean "below the cursor" on whole-second rows. */
  lemma {:induction false} CheckpointBounds(table: seq<Row>, p: Position, f: Filter)
    requires WholeSeconds(table)
    requires p.created.At?
    ensures var whole := p.created.micros - p.created.micros % MICROS_PER_SECOND;
            Select(table, if p.created.micros % MICROS_PER_SECOND != 0 then Through(At(whole))
                          else Under(RunKey(At(whole), p.id)), Unbounded, f)
            == Select(table, Under(RunKey(p.created, p.id)), Unbounded, f)
  {
    if table != [] {
      assert table[0] in table;
      CheckpointBounds(table[1..], p, f);
    }
  }

  /** The rows of one chunk that a stream yields. */
  method Deliver(out: seq<Row>, rows: seq<Row>, skip: set<RunId>) returns (more: seq<Row>)
    ensures more == out + Unskipped(rows, skip)
  {
    more := out;
    for i := 0 to |rows|
      invariant more == out + Unskipped(rows[..i], skip)
    {
      assert rows[..i + 1][..i] == rows[..i];
      if rows[i].id !in skip {
        more := more + [rows[i]];
      }
    }
    assert rows[..|rows|] == rows;
  }

  lemma {:induction false} UnskippedAppend(a: seq<Row>, b: seq<Row>, skip: set<RunId>)
    ensures Unskipped(a + b, skip) == Unskipped(a, skip) + Unskipped(b, skip)
  {
    if b == [] {
      assert a + b == a;
    } else {
      var front := b[..|b| - 1];
      UnskippedAppend(a, front, skip);
      assert (a + b)[..|a + b| - 1] == a + front;
      if b[|b| - 1].id !in skip {
        ConcatAssociates(Unskipped(a, skip), Unskipped(front, skip), [b[|b| - 1]]);
      }
    }
  }

  /** One chunk of a scan: a short chunk is the end, a full one is followed by the rows under its last. */
  lemma ChunkStep(table: seq<Row>, before: Before, after: After, f: Filter, chunk: nat, skip: set<RunId>, out: seq<Row>)
    requires Sorted(table) && chunk > 0
    ensures var all := Select(table, before, after, f);
            var rows := Take(all, chunk);
            if |rows| < chunk then rows == all
            else
              var rest := Select(table, Under(KeyOf(rows[chunk - 1])), after, f);
              |rest| < |all| && out + Unskipped(all, skip) == (out + Unskipped(rows, skip)) + Unskipped(rest, skip)
  {
    var all := Select(table, before, after, f);
    if |all| >= chunk {
      assert Take(all, chunk) == all[..chunk];
      NextChunk(table, before, after, f, chunk);
      assert all == all[..chunk] + all[chunk..];
      UnskippedAppend(all[..chunk], all[chunk..], skip);
      ConcatAssociates(out, Unskipped(all[..chunk], skip), Unskipped(all[chunk..], skip));
    }
  }

  /** The chunked checkpoint scan below a fixed bound. */
  method ScanCheckpoints(table: seq<Row>, fromAt: Option<Stamp>, fromId: Option<RunId>, f: Filter, skip: set<RunId>,
                         chunk: nat) returns (out: seq<Row>)
    requires Sorted(table) && chunk > 0
    ensures out == Unskipped(Select(table, SummariesBefore(fromAt, fromId), Unbounded, f), skip)
  {
    var beforeAt, beforeId := fromAt, fromId;
    ghost var all := Select(table, SummariesBefore(fromAt, fromId), Unbounded, f);
    ghost var before := SummariesBefore(beforeAt, beforeId);
    out := [];
    while true
      invariant before == SummariesBefore(beforeAt, beforeId)
      invariant Unskipped(all, skip) == out + Unskipped(Select(table, before, Unbounded, f), skip)
      decreases |Select(table, before, Unbounded, f)|
    {
      var rows := ListSummariesPage(table, chunk, beforeAt, beforeId, f);
      ChunkStep(table, before, Unbounded, f, chunk, skip, out);
      out := Deliver(out, rows, skip);
      if |rows| < chunk {
        return;
      }
      beforeAt, beforeId := Some(rows[|rows| - 1].created), Some(rows[|rows| - 1].id);
      before := SummariesBefore(beforeAt, beforeId);
    }
  }

  method CheckpointStream(d: Data, boundary: Option<Position>, f: Filter, chunk: nat) returns (out: seq<Row>)
    requires Sorted(d.checkpoints) && WholeSeconds(d.checkpoints) && chunk > 0
    ensures out == CheckpointEntries(d, Cut(boundary), f)
  {
    var beforeAt: Option<Stamp> := None;
    var beforeId: Option<RunId> := None;
    if boundary.Some? && boundary.value.created.Undated? {
      beforeAt, beforeId := Some(Undated), Some(boundary.value.id);
    } else if boundary.Some? {
      var t := boundary.value.created.micros;
      beforeAt := Some(At(t - t % MICROS_PER_SECOND));
      beforeId := if t % MICROS_PER_SECOND != 0 then None else Some(boundary.value.id);
      CheckpointBounds(d.checkpoints, boundary.value, f);
    }
    out := ScanCheckpoints(d.checkpoints, beforeAt, beforeId, f, Ids(d.memory), chunk);
  }

  /** `get_summaries` for the runs of one chunk. */
  function Checkpointed(checkpoints: seq<Row>, rows: seq<Row>): set<RunId> {
    set r | r in rows && Lookup(checkpoints, r.id).Some? :: r.id
  }

  lemma {:induction false} SkipAgrees(rows: seq<Row>, a: set<RunId>, b: set<RunId>)
    requires forall r :: r in rows ==> (r.id in a <==> r.id in b)
    ensures Unskipped(rows, a) == Unskipped(rows, b)
  {
    if rows != [] {
      assert rows[|rows| - 1] in rows;
      SkipAgrees(rows[..|rows| - 1], a, b);
    }
  }

  /** Asking the checkpoint table about one chunk skips the same rows as knowing all its runs. */
  lemma CheckpointedSkips(checkpoints: seq<Row>, rows: seq<Row>, skip: set<RunId>)
    ensures Unskipped(rows, skip + Checkpointed(checkpoints, rows)) == Unskipped(rows, skip + Ids(checkpoints))
  {
    forall r | r in rows ensures r.id in Checkpointed(checkpoints, rows) <==> r.id in Ids(checkpoints) {
      LookupNone(checkpoints, r.id);
    }
    SkipAgrees(rows, skip + Checkpointed(checkpoints, rows), skip + Ids(checkpoints));
  }

  /** One registry chunk: runs in `skip` and runs that have a checkpoint are not yielded. */
  method DeliverUncheckpointed(checkpoints: seq<Row>, out: seq<Row>, rows: seq<Row>, skip: set<RunId>,
                               ghost hidden: set<RunId>) returns (more: seq<Row>)
    requires hidden == skip + Ids(checkpoints)
    ensures more == out + Unskipped(rows, hidden)
  {
    more := Deliver(out, rows, skip + Checkpointed(checkpoints, rows));
    CheckpointedSkips(checkpoints, rows, skip);
  }

  /** The chunked registry scan between two fixed bounds. */
  method ScanRegistry(registry: seq<Row>, checkpoints: seq<Row>, fromAt: Option<Stamp>, fromId: Option<RunId>,
                      afterAt: Option<Stamp>, afterId: Option<RunId>, skip: set<RunId>, chunk: nat) returns (out: seq<Row>)
    requires Sorted(registry) && chunk > 0
    ensures out == Unskipped(Select(registry, RegistryBefore(fromAt, fromId), RegistryAfter(afterAt, afterId), NO_FILTER),
                             skip + Ids(checkpoints))
  {
    var beforeAt, beforeId := fromAt, fromId;
    ghost var over := RegistryAfter(afterAt, afterId);
    ghost var all := Select(registry, RegistryBefore(fromAt, fromId), over, NO_FILTER);
    ghost var before := RegistryBefore(beforeAt, beforeId);
    ghost var hidden := skip + Ids(checkpoints);
    out := [];
    while true
      invariant before == RegistryBefore(beforeAt, beforeId)
      invariant Unskipped(all, hidden) == out + Unskipped(Select(registry, before, over, NO_FILTER), hidden)
      decreases |Select(registry, before, over, NO_FILTER)|
    {
      var rows := ListPage(registry, chunk, beforeAt, beforeId, afterAt, afterId);
      ChunkStep(registry, before, over, NO_FILTER, chunk, hidden, out);
      out := DeliverUncheckpointed(checkpoints, out, rows, skip, hidden);
      if |rows| < chunk {
        return;
      }
      beforeAt, beforeId := Some(rows[|rows| - 1].created), Some(rows[|rows| - 1].id);
      before := RegistryBefore(beforeAt, beforeId);
    }
  }

  method RegistryStream(d: Data, boundary: Option<Position>, floor: Option<Key>, f: Filter, chunk: nat)
    returns (out: seq<Row>)
    requires Sorted(d.registry) && chunk > 0
    requires floor.Some? && !floor.value.dated ==> floor.value.at == NO_DATE
    ensures out == RegistryEntries(d, Cut(boundary), if floor.Some? then Over(floor.value) else Unbounded, f)
  {
    out := [];
    if f.taskClass != "" || f.terminal != "" {
      return;
    }
    var beforeAt: Option<Stamp> := None;
    var beforeId: Option<RunId> := None;
    if boundary.Some? {
      beforeAt, beforeId := Some(boundary.value.created), Some(boundary.value.id);
    }
    var afterAt: Option<Stamp> := None;
    var afterId: Option<RunId> := None;
    if floor.Some? {
      afterAt := Some(if floor.value.dated then At(floor.value.at) else Undated);
      afterId := Some(floor.value.id);
    }
    out := ScanRegistry(d.registry, d.checkpoints, beforeAt, beforeId, afterAt, afterId, Ids(d.memory), chunk);
  }

  // ----- what the streams hold

  lemma {:induction false} MatchingMemoryMembers(d: Data, records: seq<Row>, cut: Before, f: Filter, r: Row)
    ensures r in MatchingMemory(d, records, cut, f) <==>
              exists rec :: rec in records && r == MemoryRow(d, rec) && Matches(f, rec) && Within(cut, Unbounded, r)
  {
    if records != [] {
      var front, last := records[..|records| - 1], records[|records| - 1];
      assert records == front + [last];
      MatchingMemoryMembers(d, front, cut, f, r);
    }
  }

  lemma {:induction false} MatchingMemoryDistinct(d: Data, records: seq<Row>, cut: Before, f: Filter)
    requires DistinctIds(records)
    ensures DistinctIds(MatchingMemory(d, records, cut, f))
    ensures forall r :: r in MatchingMemory(d, records, cut, f) ==> exists rec :: rec in records && rec.id == r.id
  {
    if records != [] {
      var front, last := records[..|records| - 1], records[|records| - 1];
      assert records == front + [last];
      MatchingMemoryDistinct(d, front, cut, f);
      var rest := MatchingMemory(d, front, cut, f);
      forall i | 0 <= i < |rest| ensures rest[i].id != last.id {
        assert rest[i] in rest;
        var rec :| rec in front && rec.id == rest[i].id;
        var j :| 0 <= j < |front| && front[j] == rec;
        assert records[j] == rec;
      }
    }
  }

  lemma {:induction false} UnskippedSorted(rows: seq<Row>, skip: set<RunId>)
    requires Sorted(rows)
    ensures Sorted(Unskipped(rows, skip))
    ensures forall r :: r in Unskipped(rows, skip) <==> r in rows && r.id !in skip
  {
    if rows != [] {
      var front, last := rows[..|rows| - 1], rows[|rows| - 1];
      assert rows == front + [last];
      UnskippedSorted(front, skip);
      var rest := Unskipped(front, skip);
      forall i | 0 <= i < |rest| ensures KeyLess(KeyOf(last), KeyOf(rest[i])) {
        assert rest[i] in rest;
        var j :| 0 <= j < |front| && front[j] == rest[i];
        assert rows[j] == rest[i];
      }
    }
  }

  lemma MemoryEntriesAre(d: Data, cut: Before, f: Filter)
    requires Valid(d)
    ensures Sorted(MemoryEntries(d, cut, f))
    ensures forall r :: r in MemoryEntries(d, cut, f) <==>
                        r.id in Ids(d.memory) && Listed(d, f, r) && Within(cut, Unbounded, r)
  {
    MatchingMemoryDistinct(d, d.memory, cut, f);
    SortDescendingSorts(MatchingMemory(d, d.memory, cut, f));
    forall r ensures r in MemoryEntries(d, cut, f) <==>
                     r.id in Ids(d.memory) && Listed(d, f, r) && Within(cut, Unbounded, r) {
      MatchingMemoryMembers(d, d.memory, cut, f, r);
      MemoryRowIsListed(d, f, r, cut);
    }
  }

  /** A matching record stands for its run, with its stored date. */
  lemma MemoryRowIsListed(d: Data, f: Filter, r: Row, cut: Before)
    requires Valid(d)
    ensures (exists rec :: rec in d.memory && r == MemoryRow(d, rec) && Matches(f, rec) && Within(cut, Unbounded, r))
       <==> r.id in Ids(d.memory) && Listed(d, f, r) && Within(cut, Unbounded, r)
  {
    LookupFinds(d.memory, r.id);
  }

  lemma CheckpointEntriesAre(d: Data, cut: Before, f: Filter)
    requires Valid(d)
    ensures Sorted(CheckpointEntries(d, cut, f))
    ensures forall r :: r in CheckpointEntries(d, cut, f) <==>
                        r.id !in Ids(d.memory) && r.id in Ids(d.checkpoints) && Listed(d, f, r) && Within(cut, Unbounded, r)
  {
    SelectSorted(d.checkpoints, cut, Unbounded, f);
    UnskippedSorted(Select(d.checkpoints, cut, Unbounded, f), Ids(d.memory));
    forall r ensures r in CheckpointEntries(d, cut, f) <==>
                     r.id !in Ids(d.memory) && r.id in Ids(d.checkpoints) && Listed(d, f, r) && Within(cut, Unbounded, r) {
      LookupFinds(d.memory, r.id);
      LookupFinds(d.checkpoints, r.id);
    }
  }

  lemma RegistryEntriesAre(d: Data, cut: Before, floor: After, f: Filter)
    requires Valid(d)
    ensures Sorted(RegistryEntries(d, cut, floor, f))
    ensures forall r :: r in RegistryEntries(d, cut, floor, f) <==>
                        r.id !in Ids(d.memory) && r.id !in Ids(d.checkpoints) && Listed(d, f, r) && Within(cut, floor, r)
  {
    SelectSorted(d.registry, cut, floor, NO_FILTER);
    UnskippedSorted(Select(d.registry, cut, floor, NO_FILTER), Ids(d.memory) + Ids(d.checkpoints));
    forall r ensures r in RegistryEntries(d, cut, floor, f) <==>
                     r.id !in Ids(d.memory) && r.id !in Ids(d.checkpoints) && Listed(d, f, r) && Within(cut, floor, r) {
      LookupFinds(d.memory, r.id);
      LookupFinds(d.checkpoints, r.id);
      LookupFinds(d.registry, r.id);
    }
  }

  // ----- the page

  /** The rows of the first two sources below a cut, merged. */
  function Known(d: Data, cut: Before, f: Filter): seq<Row> {
    Merge(MemoryEntries(d, cut, f), CheckpointEntries(d, cut, f))
  }

  /** The merged stream of everything below the cut, read to its end and without a floor. */
  function Everything(d: Data, cut: Before, f: Filter): seq<Row> {
    Merge(Known(d, cut, f), RegistryEntries(d, cut, Unbounded, f))
  }

  /** The whole list: what a page would be with no cursor and no limit. */
  function Listing(d: Data, f: Filter): seq<Row> {
    Everything(d, Anywhere, f)
  }

  lemma EverythingIs(d: Data, cut: Before, f: Filter)
    requires Valid(d)
    ensures Sorted(Everything(d, cut, f))
    ensures forall r :: r in Everything(d, cut, f) <==> Listed(d, f, r) && Within(cut, Unbounded, r)
  {
    MemoryEntriesAre(d, cut, f);
    CheckpointEntriesAre(d, cut, f);
    RegistryEntriesAre(d, cut, Unbounded, f);
    var m, c := MemoryEntries(d, cut, f), CheckpointEntries(d, cut, f);
    MergeSorted(m, c);
    MergeSorted(Merge(m, c), RegistryEntries(d, cut, Unbounded, f));
    forall r | Listed(d, f, r)
      ensures r.id in Ids(d.memory) || r.id in Ids(d.checkpoints) || r.id in Ids(d.registry)
    {
      LookupFinds(d.memory, r.id);
      LookupFinds(d.checkpoints, r.id);
      LookupFinds(d.registry, r.id);
    }
  }

  /** The three merged streams are the one sorted list with one row per matching run. */
  lemma ListingIsTheList(d: Data, f: Filter)
    requires Valid(d)
    ensures IsListing(d, f, Listing(d, f))
  {
    EverythingIs(d, Anywhere, f);
  }

  /** Reading below a cut is the same as cutting the whole list. */
  lemma EverythingIsBelow(d: Data, cut: Before, f: Filter)
    requires Valid(d)
    ensures Everything(d, cut, f) == Select(Listing(d, f), cut, Unbounded, NO_FILTER)
  {
    EverythingIs(d, cut, f);
    EverythingIs(d, Anywhere, f);
    SelectSorted(Listing(d, f), cut, Unbounded, NO_FILTER);
    SortedUnique(Everything(d, cut, f), Select(Listing(d, f), cut, Unbounded, NO_FILTER));
  }

  /** Two sorted lists that agree down to the `n`th row of `known` have the same first rows. */
  lemma SameDownToFloor(known: seq<Row>, rest: seq<Row>, above: seq<Row>, n: nat, x: seq<Row>, y: seq<Row>)
    requires Sorted(known) && 0 < n <= |known| && Ids(known) !! Ids(rest)
    requires forall e :: e in above <==> e in rest && KeyLess(KeyOf(known[n - 1]), KeyOf(e))
    requires Sorted(x) && forall e :: e in x <==> e in known[..n] || e in above
    requires Sorted(y) && forall e :: e in y <==> e in known || e in rest
    ensures x <= y
  {
    forall e | e in x ensures e in y {
      if e in known[..n] { assert e in known; }
    }
    forall e, k | e in y && e !in x && k in x ensures KeyLess(KeyOf(e), KeyOf(k)) {
      AboveFloor(known, rest, above, n, k);
      BelowFloor(known, rest, above, n, e);
      if KeyOf(k) != KeyOf(known[n - 1]) {
        KeyTransitive(KeyOf(e), KeyOf(known[n - 1]), KeyOf(k));
      }
    }
    SortedPrefix(x, y);
  }

  lemma SortedTake(s: seq<Row>, n: nat)
    requires Sorted(s) && n <= |s|
    ensures Sorted(s[..n]) && Ids(s[..n]) <= Ids(s)
  {
    forall r | r in s[..n] ensures r in s { }
  }

  lemma MergeMembers(a: seq<Row>, b: seq<Row>)
    requires Sorted(a) && Sorted(b) && Ids(a) !! Ids(b)
    ensures Sorted(Merge(a, b))
    ensures forall e :: e in Merge(a, b) <==> e in a || e in b
  {
    forall x, y | x in a && y in b ensures x.id != y.id {
      assert x.id in Ids(a) && y.id in Ids(b);
    }
    MergeSorted(a, b);
  }

  lemma TakeOfPrefix(x: seq<Row>, y: seq<Row>, n: nat)
    requires x <= y && n <= |x|
    ensures Take(x, n) == Take(y, n)
  {
    assert x[..n] == y[..n];
    assert |x| == n ==> x[..n] == x;
    assert |y| == n ==> y[..n] == y;
  }

  /** A merge cut to `n` rows needs nothing at or below the `n`th row of one of its streams. */
  lemma FloorKeepsPrefix(known: seq<Row>, rest: seq<Row>, above: seq<Row>, n: nat)
    requires Sorted(known) && Sorted(rest) && Sorted(above) && Ids(known) !! Ids(rest) && 0 < n <= |known|
    requires forall e :: e in above <==> e in rest && KeyLess(KeyOf(known[n - 1]), KeyOf(e))
    ensures Take(Merge(known[..n], above), n) == Take(Merge(known, rest), n)
  {
    SortedTake(known, n);
    assert Ids(above) <= Ids(rest);
    MergeMembers(known[..n], above);
    MergeMembers(known, rest);
    SameDownToFloor(known, rest, above, n, Merge(known[..n], above), Merge(known, rest));
    MergeLength(known[..n], above);
    TakeOfPrefix(Merge(known[..n], above), Merge(known, rest), n);
  }

  lemma AboveFloor(known: seq<Row>, rest: seq<Row>, above: seq<Row>, n: nat, k: Row)
    requires Sorted(known) && 0 < n <= |known|
    requires k in above <==> k in rest && KeyLess(KeyOf(known[n - 1]), KeyOf(k))
    requires k in known[..n] || k in above
    ensures KeyLess(KeyOf(known[n - 1]), KeyOf(k)) || KeyOf(k) == KeyOf(known[n - 1])
  {
    if k in known[..n] {
      var i :| 0 <= i < n && known[..n][i] == k;
    }
  }

  lemma BelowFloor(known: seq<Row>, rest: seq<Row>, above: seq<Row>, n: nat, e: Row)
    requires Sorted(known) && 0 < n <= |known|
    requires Ids(known) !! Ids(rest)
    requires e in above <==> e in rest && KeyLess(KeyOf(known[n - 1]), KeyOf(e))
    requires (e in known || e in rest) && e !in known[..n] && e !in above
    ensures KeyLess(KeyOf(e), KeyOf(known[n - 1]))
  {
    if e in known {
      assert known == known[..n] + known[n..];
      var i :| 0 <= i < |known| - n && known[n..][i] == e;
    } else {
      assert known[n - 1] in known && known[n - 1].id in Ids(known) && e.id in Ids(rest);
      KeyOrder(KeyOf(e), KeyOf(known[n - 1]));
    }
  }

  lemma KnownIs(d: Data, cut: Before, f: Filter)
    requires Valid(d)
    ensures Sorted(Known(d, cut, f))
    ensures Ids(Known(d, cut, f)) !! Ids(RegistryEntries(d, cut, Unbounded, f))
  {
    MemoryEntriesAre(d, cut, f);
    CheckpointEntriesAre(d, cut, f);
    MergeSorted(MemoryEntries(d, cut, f), CheckpointEntries(d, cut, f));
    RegistryEntriesAre(d, cut, Unbounded, f);
  }

  lemma FloorRows(d: Data, cut: Before, key: Key, f: Filter)
    requires Valid(d)
    ensures Sorted(RegistryEntries(d, cut, Unbounded, f)) && Sorted(RegistryEntries(d, cut, Over(key), f))
    ensures forall e :: e in RegistryEntries(d, cut, Over(key), f) <==>
                        e in RegistryEntries(d, cut, Unbounded, f) && KeyLess(key, KeyOf(e))
  {
    RegistryEntriesAre(d, cut, Unbounded, f);
    RegistryEntriesAre(d, cut, Over(key), f);
  }

  /** The floor that the first `n` known rows set: the key of the `n`th, if there is one. */
  function FloorOf(head: seq<Row>, n: nat): After
    requires n > 0
  {
    if |head| == n then Over(KeyOf(head[n - 1])) else Unbounded
  }

  lemma NoFloor(d: Data, cut: Before, f: Filter, n: nat)
    requires 0 < n && |Known(d, cut, f)| < n
    ensures var head := Take(Known(d, cut, f), n);
            Merge(head, RegistryEntries(d, cut, FloorOf(head, n), f)) == Everything(d, cut, f)
  {
    assert FloorOf(Take(Known(d, cut, f), n), n) == Unbounded;
  }

  /** Stopping the registry scan at the last candidate of the other sources loses no page row. */
  lemma FloorKeepsPage(d: Data, cut: Before, f: Filter, n: nat)
    requires Valid(d) && n > 0
    ensures var head := Take(Known(d, cut, f), n);
            Take(Merge(head, RegistryEntries(d, cut, FloorOf(head, n), f)), n) == Take(Everything(d, cut, f), n)
  {
    var known := Known(d, cut, f);
    var floor := FloorOf(Take(known, n), n);
    if |known| >= n {
      assert Take(known, n) == known[..n];
      KnownIs(d, cut, f);
      FloorRows(d, cut, floor.key, f);
      FloorKeepsPrefix(known, RegistryEntries(d, cut, Unbounded, f), RegistryEntries(d, cut, floor, f), n);
    } else {
      NoFloor(d, cut, f, n);
    }
  }

  lemma {:induction false} MergeLength(a: seq<Row>, b: seq<Row>)
    ensures |Merge(a, b)| == |a| + |b|
    decreases |a| + |b|
  {
    if a != [] && b != [] {
      if KeyLess(KeyOf(a[0]), KeyOf(b[0])) { MergeLength(a, b[1..]); } else { MergeLength(a[1..], b); }
    }
  }

  datatype Page = Page(items: seq<Row>, next: Option<Position>)

  datatype ListError = BadLimit

  /** The reference page: the first `limit` rows below the cut, and a cursor iff more remain. */
  function PageOf(l: seq<Row>, boundary: Option<Position>, limit: nat): Page
    requires limit > 0
  {
    var below := Select(l, Cut(boundary), Unbounded, NO_FILTER);
    if |below| <= limit then Page(below, None)
    else Page(below[..limit], Some(Position(below[limit - 1].created, below[limit - 1].id)))
  }

  /** What the merged, floored and limited streams give is the page cut out of any listing. */
  lemma PageIsCut(d: Data, f: Filter, limit: nat, boundary: Option<Position>, l: seq<Row>)
    requires Valid(d) && limit > 0
    requires IsListing(d, f, l)
    ensures var taken := Take(Everything(d, Cut(boundary), f), limit + 1);
            PageOf(l, boundary, limit)
            == Page(Take(taken, limit),
                    if |taken| > limit then Some(Position(taken[limit - 1].created, taken[limit - 1].id)) else None)
  {
    EverythingIsBelow(d, Cut(boundary), f);
    ListingIsTheList(d, f);
    ListingUnique(d, f, l, Listing(d, f));
  }

  lemma PageIsCutAlways(d: Data, f: Filter, limit: nat, boundary: Option<Position>)
    requires Valid(d) && limit > 0
    ensures var taken := Take(Everything(d, Cut(boundary), f), limit + 1);
            forall l :: IsListing(d, f, l) ==>
              PageOf(l, boundary, limit)
              == Page(Take(taken, limit),
                      if |taken| > limit then Some(Position(taken[limit - 1].created, taken[limit - 1].id)) else None)
  {
    forall l | IsListing(d, f, l) {
      PageIsCut(d, f, limit, boundary, l);
    }
  }

  /** The merged candidates of one page: `limit + 1` rows, so that the last one shows whether more remain. */
  method TakeCandidates(d: Data, f: Filter, limit: nat, boundary: Option<Position>) returns (taken: seq<Row>)
    requires Valid(d) && limit > 0
    ensures taken == Take(Everything(d, Cut(boundary), f), limit + 1)
  {
    var memory := MemoryStream(d, boundary, f);
    var checkpoints := CheckpointStream(d, boundary, f, limit + 1);
    var head := Take(Merge(memory, checkpoints), limit + 1);
    var floor: Option<Key> := if |head| > limit then Some(KeyOf(head[limit])) else None;
    var accepted := RegistryStream(d, boundary, floor, f, limit + 1);
    taken := Take(Merge(head, accepted), limit + 1);
    FloorKeepsPage(d, Cut(boundary), f, limit + 1);
  }

  /** `list_run_page`. */
  method ListRunPage(d: Data, f: Filter, limit: int, boundary: Option<Position>)
    returns (page: Result<Page, ListError>)
    requires Valid(d)
    ensures page.Err? <==> limit < 1
    ensures page.Ok? ==> forall l :: IsListing(d, f, l) ==> page.value == PageOf(l, boundary, limit)
  {
    if limit < 1 {
      return Err(BadLimit);
    }
    var taken := TakeCandidates(d, f, limit, boundary);
    var items := Take(taken, limit);
    var next: Option<Position> := None;
    if |taken| > limit {
      var key := KeyOf(taken[limit - 1]);
      next := Some(Position(if key.dated then At(key.at) else Undated, key.id));
    }
    page := Ok(Page(items, next));
    PageIsCutAlways(d, f, limit, boundary);
  }

  // ----- the walk

  /** All the rows a client sees by following `next` from `boundary` until it is absent. */
  function Walk(l: seq<Row>, boundary: Option<Position>, limit: nat): seq<Row>
    requires Sorted(l) && limit > 0
    decreases |Select(l, Cut(boundary), Unbounded, NO_FILTER)|
  {
    var page := PageOf(l, boundary, limit);
    if page.next.None? then page.items
    else
      NextChunk(l, Cut(boundary), Unbounded, NO_FILTER, limit);
      page.items + Walk(l, page.next, limit)
  }

  lemma {:induction false} WalkFrom(l: seq<Row>, boundary: Option<Position>, limit: nat)
    requires Sorted(l) && limit > 0
    ensures Walk(l, boundary, limit) == Select(l, Cut(boundary), Unbounded, NO_FILTER)
    decreases |Select(l, Cut(boundary), Unbounded, NO_FILTER)|
  {
    var below := Select(l, Cut(boundary), Unbounded, NO_FILTER);
    var page := PageOf(l, boundary, limit);
    if page.next.Some? {
      NextChunk(l, Cut(boundary), Unbounded, NO_FILTER, limit);
      WalkFrom(l, page.next, limit);
      assert below == below[..limit] + below[limit..];
    }
  }

  lemma {:induction false} SelectAll(l: seq<Row>)
    ensures Select(l, Anywhere, Unbounded, NO_FILTER) == l
  {
    if l != [] {
      SelectAll(l[1..]);
      assert l == [l[0]] + l[1..];
    }
  }

  /**
   * With unchanged data, following `next` from the start lists every matching run exactly once,
   * in strictly descending key order, whatever the page size.
   */
  lemma WalkListsEverything(d: Data, f: Filter, l: seq<Row>, limit: nat)
    requires Valid(d) && limit > 0
    requires IsListing(d, f, l)
    ensures Walk(l, None, limit) == l
    ensures DistinctIds(l)
    ensures Ids(l) == set id | id in Ids(d.memory) + Ids(d.checkpoints) + Ids(d.registry)
                                && RowOf(d, id).Some? && Matches(f, RowOf(d, id).value) :: id
  {
    WalkFrom(l, None, limit);
    SelectAll(l);
    forall i, j | 0 <= i < j < |l| ensures l[i].id != l[j].id {
      assert l[i] in l && l[j] in l;
      KeyOrder(KeyOf(l[i]), KeyOf(l[j]));
    }
    var ids := Ids(d.memory) + Ids(d.checkpoints) + Ids(d.registry);
    forall id ensures id in Ids(l) <==> id in ids && RowOf(d, id).Some? && Matches(f, RowOf(d, id).value) {
      LookupFinds(d.memory, id);
      LookupFinds(d.checkpoints, id);
      LookupFinds(d.registry, id);
      if id in Ids(l) {
        var r :| r in l && r.id == id;
        assert Listed(d, f, r);
      }
      if id in ids && RowOf(d, id).Some? && Matches(f, RowOf(d, id).value) {
        assert Listed(d, f, RowOf(d, id).value);
      }
    }
  }

  // ----- a walk while the data change

  /** The rows seen so far, whether the walk ended, and if not where it goes on. */
  datatype Seen = Seen(rows: seq<Row>, ended: bool, boundary: Option<Position>)

  /** What a client that follows `next` sees when each page is cut from the list of its own moment. */
  function WalkThrough(ls: seq<seq<Row>>, boundary: Option<Position>, limit: nat): Seen
    requires limit > 0
  {
    if ls == [] then Seen([], false, boundary)
    else
      var page := PageOf(ls[0], boundary, limit);
      if page.next.None? then Seen(page.items, true, None)
      else
        var rest := WalkThrough(ls[1..], page.next, limit);
        Seen(page.items + rest.rows, rest.ended, rest.boundary)
  }

  predicate Below(boundary: Option<Position>, k: Key) {
    boundary.None? || KeyLess(k, RunKey(boundary.value.created, boundary.value.id))
  }

  ghost predicate HasKey(s: seq<Row>, k: Key) {
    exists r :: r in s && KeyOf(r) == k
  }

  /** A page holds the rows of its list from its boundary down to the next one. */
  ghost predicate PageHolds(l: seq<Row>, boundary: Option<Position>, page: Page) {
    && Sorted(page.items)
    && (forall r :: r in page.items ==> r in l && Below(boundary, KeyOf(r)))
    && (forall r :: r in l && Below(boundary, KeyOf(r)) ==> r in page.items || (page.next.Some? && Below(page.next, KeyOf(r))))
    && (page.next.Some? ==> (forall r :: r in page.items ==> !Below(page.next, KeyOf(r)))
                            && forall k :: Below(page.next, k) ==> Below(boundary, k))
  }

  /** A sorted list is cut in two at its `n`th row. */
  lemma CutInTwo(s: seq<Row>, n: nat)
    requires Sorted(s) && 0 < n <= |s|
    ensures Sorted(s[..n]) && s[n - 1] in s
    ensures forall r :: r in s[..n] ==> r in s && !KeyLess(KeyOf(r), KeyOf(s[n - 1]))
    ensures forall r :: r in s ==> r in s[..n] || KeyLess(KeyOf(r), KeyOf(s[n - 1]))
  {
    SortedTake(s, n);
    forall r | r in s[..n] ensures r in s && !KeyLess(KeyOf(r), KeyOf(s[n - 1])) {
      var i :| 0 <= i < n && s[..n][i] == r;
      KeyOrder(KeyOf(r), KeyOf(s[n - 1]));
    }
    forall r | r in s ensures r in s[..n] || KeyLess(KeyOf(r), KeyOf(s[n - 1])) {
      var i :| 0 <= i < |s| && s[i] == r;
      if i < n { assert s[..n][i] == r; }
    }
  }

  lemma PageIsPart(l: seq<Row>, boundary: Option<Position>, limit: nat)
    requires Sorted(l) && limit > 0
    ensures PageHolds(l, boundary, PageOf(l, boundary, limit))
  {
    var below := Select(l, Cut(boundary), Unbounded, NO_FILTER);
    SelectSorted(l, Cut(boundary), Unbounded, NO_FILTER);
    if |below| > limit {
      var last := KeyOf(below[limit - 1]);
      CutInTwo(below, limit);
      forall k | KeyLess(k, last) ensures Below(boundary, k) {
        if boundary.Some? { KeyTransitive(k, last, RunKey(boundary.value.created, boundary.value.id)); }
      }
    }
  }

  /** What a walk that goes on from `boundary` sees. */
  ghost predicate SeenBelow(ls: seq<seq<Row>>, boundary: Option<Position>, seen: Seen) {
    && Sorted(seen.rows)
    && (forall r :: r in seen.rows ==> Below(boundary, KeyOf(r)) && exists l :: l in ls && r in l)
    && (!seen.ended ==> (forall r :: r in seen.rows ==> !Below(seen.boundary, KeyOf(r)))
                        && forall k :: Below(seen.boundary, k) ==> Below(boundary, k))
  }

  lemma PageThenRest(ls: seq<seq<Row>>, boundary: Option<Position>, page: Page, rest: Seen)
    requires ls != [] && PageHolds(ls[0], boundary, page) && page.next.Some? && SeenBelow(ls[1..], page.next, rest)
    ensures SeenBelow(ls, boundary, Seen(page.items + rest.rows, rest.ended, rest.boundary))
  {
    var rows := page.items + rest.rows;
    forall i, j | 0 <= i < j < |rows| ensures KeyLess(KeyOf(rows[j]), KeyOf(rows[i])) {
      if i < |page.items| <= j {
        assert rows[i] in page.items && rows[j] in rest.rows;
        PageAbove(page.next.value, KeyOf(rows[i]), KeyOf(rows[j]));
      }
    }
    forall r | r in rows ensures Below(boundary, KeyOf(r)) && exists l :: l in ls && r in l {
      if r in page.items {
        assert ls[0] in ls;
      } else {
        var l :| l in ls[1..] && r in l;
        assert l in ls;
      }
    }
  }

  lemma PageAbove(next: Position, above: Key, below: Key)
    requires !Below(Some(next), above) && Below(Some(next), below)
    ensures KeyLess(below, above)
  {
    var k := RunKey(next.created, next.id);
    KeyOrder(above, k);
    if above != k { KeyTransitive(below, k, above); }
  }

  lemma {:induction false} WalkDescends(ls: seq<seq<Row>>, boundary: Option<Position>, limit: nat)
    requires limit > 0 && forall l :: l in ls ==> Sorted(l)
    ensures SeenBelow(ls, boundary, WalkThrough(ls, boundary, limit))
  {
    if ls != [] {
      var page := PageOf(ls[0], boundary, limit);
      assert ls[0] in ls;
      PageIsPart(ls[0], boundary, limit);
      if page.next.Some? {
        WalkDescends(ls[1..], page.next, limit);
        PageThenRest(ls, boundary, page, WalkThrough(ls[1..], page.next, limit));
      }
    }
  }

  lemma {:induction false} WalkMeets(ls: seq<seq<Row>>, boundary: Option<Position>, limit: nat, k: Key)
    requires limit > 0 && forall l :: l in ls ==> Sorted(l) && HasKey(l, k)
    requires Below(boundary, k)
    ensures var seen := WalkThrough(ls, boundary, limit);
            HasKey(seen.rows, k) || (!seen.ended && Below(seen.boundary, k))
  {
    if ls != [] {
      var page := PageOf(ls[0], boundary, limit);
      assert ls[0] in ls;
      PageIsPart(ls[0], boundary, limit);
      var r :| r in ls[0] && KeyOf(r) == k;
      if page.next.Some? {
        var rest := WalkThrough(ls[1..], page.next, limit);
        if r in page.items {
          assert r in page.items + rest.rows;
        } else {
          WalkMeets(ls[1..], page.next, limit, k);
          if q :| q in rest.rows && KeyOf(q) == k { assert q in page.items + rest.rows; }
        }
      }
    }
  }

  /** One position of the list, and no other, has the key. */
  ghost predicate ListedOnce(s: seq<Row>, k: Key) {
    exists i :: 0 <= i < |s| && KeyOf(s[i]) == k && forall j :: 0 <= j < |s| && KeyOf(s[j]) == k ==> j == i
  }

  lemma SortedHasOnce(s: seq<Row>, k: Key)
    requires Sorted(s) && HasKey(s, k)
    ensures ListedOnce(s, k)
  {
    var r :| r in s && KeyOf(r) == k;
    var i :| 0 <= i < |s| && s[i] == r;
    forall j | 0 <= j < |s| && KeyOf(s[j]) == k ensures j == i { KeyOrder(k, k); }
  }

  /** The run is listed with this key at every moment of the walk. */
  ghost predicate AlwaysListed(ds: seq<Data>, f: Filter, k: Key) {
    forall d :: d in ds ==> exists r :: Listed(d, f, r) && KeyOf(r) == k
  }

  /**
   * While runs come, go and change between the pages, a walk sees keys in strictly descending
   * order, so none twice, and only rows that were listed at the moment of a page. A run that is
   * listed with the same key all along is seen exactly once: when the walk ends, and before that
   * as soon as the walk has passed its key.
   */
  lemma WalkSurvivesChanges(ds: seq<Data>, f: Filter, ls: seq<seq<Row>>, limit: nat)
    requires limit > 0 && |ls| == |ds| && forall i :: 0 <= i < |ds| ==> Valid(ds[i]) && IsListing(ds[i], f, ls[i])
    ensures var seen := WalkThrough(ls, None, limit);
            && Sorted(seen.rows)
            && (forall r :: r in seen.rows ==> exists d :: d in ds && Listed(d, f, r))
            && forall k :: AlwaysListed(ds, f, k) && (seen.ended || !Below(seen.boundary, k)) ==> ListedOnce(seen.rows, k)
  {
    var seen := WalkThrough(ls, None, limit);
    forall l | l in ls ensures Sorted(l) {
      var i :| 0 <= i < |ls| && ls[i] == l;
    }
    WalkDescends(ls, None, limit);
    forall r | r in seen.rows ensures exists d :: d in ds && Listed(d, f, r) {
      var l :| l in ls && r in l;
      var i :| 0 <= i < |ls| && ls[i] == l;
      assert ds[i] in ds && Listed(ds[i], f, r);
    }
    forall k | AlwaysListed(ds, f, k) && (seen.ended || !Below(seen.boundary, k)) ensures ListedOnce(seen.rows, k) {
      forall l | l in ls ensures HasKey(l, k) {
        var i :| 0 <= i < |ls| && ls[i] == l;
        assert ds[i] in ds;
        var r :| Listed(ds[i], f, r) && KeyOf(r) == k;
        assert r in l;
      }
      WalkMeets(ls, None, limit, k);
      SortedHasOnce(seen.rows, k);
    }
  }

  /** The key must stay: a run that is dated anew above the cursor between two pages is never seen. */
  lemma RedatedRunIsMissed(a: Row, b: Row, again: Row)
    requires KeyLess(KeyOf(b), KeyOf(a)) && KeyLess(KeyOf(a), KeyOf(again)) && again.id == b.id != a.id
    ensures var seen := WalkThrough([[a, b], [again, a]], None, 1);
            seen.ended && b.id !in Ids(seen.rows)
  {
    KeyOrder(KeyOf(a), KeyOf(again));
    KeyOrder(KeyOf(a), KeyOf(a));
    var first, cut := [a, b], Some(Position(a.created, a.id));
    SelectAll(first);
    assert PageOf(first, None, 1) == Page([a], cut);
    assert Select([], Cut(cut), Unbounded, NO_FILTER) == [];
    assert [again, a][1..] == [a] && [a][1..] == [];
    assert Select([a], Cut(cut), Unbounded, NO_FILTER) == [];
    assert PageOf([again, a], cut, 1) == Page([], None);
    assert [first, [again, a]][1..] == [[again, a]];
  }
}
