/** The row table, its hourly aggregates as an incrementally kept view, retention pruning,
    and the rolling-window counts derived from all of them.  SQL statements are atomic. */
module HourlyTables {
  import opened Options

  /** Times are not negative: the event store could not index its counters with others. */
  datatype Row = Row(time: nat, domain: string, client: string, kind: string, upstream: string, hit: bool, blocked: bool)

  datatype Cell = Cell(total: nat, hits: nat, replies: nat, blocked: nat)

  datatype Key = Key(hour: int, value: string)

  /** One aggregate table: the value it groups by and what one row contributes. */
  datatype View = View(value: Row -> string, cell: Row -> Cell)

  type Table = map<Key, Cell>

  const HOUR: int := 3600
  const DAY: int := 86400
  const RETENTION_BATCH: nat := 10000

  /** Start of the hour; the source's integer division truncates toward zero. */
  function Hour(t: int): int {
    if t >= 0 then t / HOUR * HOUR else -(-t / HOUR * HOUR)
  }

  /** The hour of a time is the last full hour not after it; a negative time rounds up. */
  lemma HourStart(t: int)
    ensures Hour(t) % 3600 == 0
    ensures if t >= 0 then Hour(t) <= t < Hour(t) + 3600 else Hour(t) - 3600 < t <= Hour(t)
  {
  }

  /** The rows that the rebuilt time range selects are the unexpired ones of the cutoff's hour,
      also where the hour of a negative cutoff is rounded up. */
  lemma HourRange(t: nat, cutoff: int)
    requires cutoff <= t
    ensures t < Hour(cutoff) + HOUR <==> Hour(t) == Hour(cutoff)
    ensures Hour(cutoff) <= Hour(t)
  {
  }

  // ----- sums over rows -----

  function Plus(a: Option<Cell>, b: Option<Cell>): Option<Cell> {
    if a.None? then b
    else if b.None? then a
    else Some(Cell(a.value.total + b.value.total, a.value.hits + b.value.hits,
                   a.value.replies + b.value.replies, a.value.blocked + b.value.blocked))
  }

  /** SELECT of the cells of all rows with p, added up; None when there is no such row. */
  function Sum(rows: seq<Row>, p: Row -> bool, v: View): Option<Cell> {
    if rows == [] then None
    else
      var last := rows[|rows| - 1];
      Plus(Sum(rows[..|rows| - 1], p, v), if p(last) then Some(v.cell(last)) else None)
  }

  lemma SumSnoc(rows: seq<Row>, r: Row, p: Row -> bool, v: View)
    ensures Sum(rows + [r], p, v) == Plus(Sum(rows, p, v), if p(r) then Some(v.cell(r)) else None)
  {
  }

  lemma {:induction false} SumConcat(a: seq<Row>, b: seq<Row>, p: Row -> bool, v: View)
    ensures Sum(a + b, p, v) == Plus(Sum(a, p, v), Sum(b, p, v))
  {
    if b == [] {
      assert a + b == a;
    } else {
      var n := |b| - 1;
      SumConcat(a, b[..n], p, v);
      assert (a + b)[..|a| + n] == a + b[..n];
    }
  }

  lemma {:induction false} SumSame(rows: seq<Row>, p: Row -> bool, q: Row -> bool, v: View)
    requires forall r | r in rows :: p(r) == q(r)
    ensures Sum(rows, p, v) == Sum(rows, q, v)
  {
    if rows != [] {
      SumSame(rows[..|rows| - 1], p, q, v);
    }
  }

  /** A selection split in two adds up. */
  lemma {:induction false} SumSplit(rows: seq<Row>, whole: Row -> bool, p: Row -> bool, q: Row -> bool, v: View)
    requires forall r | r in rows :: !(p(r) && q(r)) && whole(r) == (p(r) || q(r))
    ensures Sum(rows, whole, v) == Plus(Sum(rows, p, v), Sum(rows, q, v))
  {
    if rows != [] {
      SumSplit(rows[..|rows| - 1], whole, p, q, v);
    }
  }

  lemma {:induction false} SumSome(rows: seq<Row>, p: Row -> bool, v: View, r: Row)
    requires r in rows && p(r)
    ensures Sum(rows, p, v).Some?
  {
    var n := |rows| - 1;
    if r != rows[n] {
      assert r in rows[..n];
      SumSome(rows[..n], p, v, r);
    }
  }

  lemma {:induction false} SumNone(rows: seq<Row>, p: Row -> bool, v: View)
    requires forall r | r in rows :: !p(r)
    ensures Sum(rows, p, v) == None
  {
    if rows != [] {
      SumNone(rows[..|rows| - 1], p, v);
    }
  }

  // ----- tables -----

  function Lookup<K>(table: map<K, Cell>, k: K): Option<Cell> {
    if k in table then Some(table[k]) else None
  }

  function Hourly(v: View): Row -> Key {
    (r: Row) => Key(Hour(r.time), v.value(r))
  }

  function Always(): Row -> bool {
    (r: Row) => true
  }

  function Since(from: int): Row -> bool {
    (r: Row) => r.time >= from
  }

  function Within(from: int, to: int): Row -> bool {
    (r: Row) => from <= r.time < to
  }

  /** The selected rows of one group. */
  function Keyed<K(==)>(p: Row -> bool, key: Row -> K, k: K): Row -> bool {
    (r: Row) => p(r) && key(r) == k
  }

  /** The table is SELECT hour, value, COUNT/SUM FROM rows WHERE p GROUP BY hour, value. */
  ghost predicate IsGroupBy(table: Table, rows: seq<Row>, p: Row -> bool, v: View) {
    forall k: Key :: Lookup(table, k) == Sum(rows, Keyed(p, Hourly(v), k), v)
  }

  /** Start of the hour, rounded down. */
  function HourFloor(t: int): int {
    t - t % HOUR
  }

  /** The whole hour lies at or after the cutoff, or before all rows. */
  predicate Covers(cutoff: Option<int>, hour: int) {
    cutoff.None? || hour < 0 || hour > HourFloor(cutoff.value - 1)
  }

  /** The table is exact for every hour at or after a retention cutoff. */
  ghost predicate Exact(table: Table, rows: seq<Row>, v: View, cutoff: Option<int>) {
    forall k: Key | Covers(cutoff, k.hour) :: Lookup(table, k) == Sum(rows, Keyed(Always(), Hourly(v), k), v)
  }

  // ----- inserting -----

  /** Adds the selected rows to a grouped count, row by row. */
  method AddRows<K(==,!new)>(counts: map<K, Cell>, rows: seq<Row>, p: Row -> bool, key: Row -> K, v: View)
    returns (result: map<K, Cell>)
    ensures forall k: K :: Lookup(result, k) == Plus(Lookup(counts, k), Sum(rows, Keyed(p, key, k), v))
  {
    result := counts;
    for i := 0 to |rows|
      invariant forall k: K :: Lookup(result, k) == Plus(Lookup(counts, k), Sum(rows[..i], Keyed(p, key, k), v))
    {
      var r := rows[i];
      assert rows[..i + 1] == rows[..i] + [r];
      forall k: K {
        SumSnoc(rows[..i], r, Keyed(p, key, k), v);
      }
      if p(r) {
        result := result[key(r) := Plus(Lookup(result, key(r)), Some(v.cell(r))).value];
      }
    }
    assert rows[..|rows|] == rows;
  }

  /** INSERT of each group, adding to what the table already holds. */
  method Upsert(table: Table, groups: Table) returns (result: Table)
    ensures forall k: Key :: Lookup(result, k) == Plus(Lookup(table, k), Lookup(groups, k))
  {
    result := table;
    var left := groups.Keys;
    while left != {}
      invariant left <= groups.Keys
      invariant forall k: Key :: Lookup(result, k)
                                 == if k in left then Lookup(table, k) else Plus(Lookup(table, k), Lookup(groups, k))
    {
      var k :| k in left;
      result := result[k := Plus(Lookup(table, k), Some(groups[k])).value];
      left := left - {k};
    }
  }

  /** A committed batch keeps a table exact. */
  method UpsertHourly(table: Table, events: seq<Row>, v: View, ghost rows: seq<Row>, ghost from: Option<int>)
    returns (result: Table)
    ensures Exact(table, rows, v, from) ==> Exact(result, rows + events, v, from)
  {
    var groups := AddRows(map[], events, Always(), Hourly(v), v);
    result := Upsert(table, groups);
    forall k: Key {
      SumConcat(rows, events, Keyed(Always(), Hourly(v), k), v);
    }
  }

  // ----- retention -----

  function Filter(rows: seq<Row>, p: Row -> bool): seq<Row> {
    if rows == [] then []
    else
      var last := rows[|rows| - 1];
      Filter(rows[..|rows| - 1], p) + if p(last) then [last] else []
  }

  lemma {:induction false} FilterConcat(a: seq<Row>, b: seq<Row>, p: Row -> bool)
    ensures Filter(a + b, p) == Filter(a, p) + Filter(b, p)
  {
    if b == [] {
      assert a + b == a;
    } else {
      var n := |b| - 1;
      FilterConcat(a, b[..n], p);
      assert (a + b)[..|a| + n] == a + b[..n];
    }
  }

  /** Summing filtered rows is summing with both conditions. */
  lemma {:induction false} SumFilter(rows: seq<Row>, q: Row -> bool, p: Row -> bool, both: Row -> bool, v: View)
    requires forall r | r in rows :: both(r) == (q(r) && p(r))
    ensures Sum(Filter(rows, q), p, v) == Sum(rows, both, v)
  {
    if rows != [] {
      var n := |rows| - 1;
      SumFilter(rows[..n], q, p, both, v);
      if q(rows[n]) {
        SumSnoc(Filter(rows[..n], q), rows[n], p, v);
      } else {
        assert Filter(rows, q) == Filter(rows[..n], q);
      }
    }
  }

  /** DELETE of the first n rows, in id order, that are older than the cutoff. */
  function DeleteExpired(rows: seq<Row>, cutoff: int, n: nat): seq<Row> {
    if rows == [] || n == 0 then rows
    else if rows[0].time < cutoff then DeleteExpired(rows[1..], cutoff, n - 1)
    else [rows[0]] + DeleteExpired(rows[1..], cutoff, n)
  }

  /** Unexpired rows survive in order. */
  lemma {:induction false} DeleteKeepsLive(rows: seq<Row>, cutoff: int, n: nat)
    ensures Filter(DeleteExpired(rows, cutoff, n), Since(cutoff)) == Filter(rows, Since(cutoff))
  {
    hide Filter;
    if rows != [] && n > 0 {
      var head, tail := [rows[0]], rows[1..];
      assert rows == head + tail;
      FilterConcat(head, tail, Since(cutoff));
      FilterOne(rows[0], Since(cutoff));
      if rows[0].time < cutoff {
        DeleteKeepsLive(tail, cutoff, n - 1);
      } else {
        DeleteKeepsLive(tail, cutoff, n);
        FilterConcat(head, DeleteExpired(tail, cutoff, n), Since(cutoff));
      }
    }
  }

  lemma FilterOne(r: Row, p: Row -> bool)
    ensures Filter([r], p) == if p(r) then [r] else []
  {
  }

  /** At most n rows go, and fewer only if no expired one is left. */
  lemma {:induction false} DeleteIsBatched(rows: seq<Row>, cutoff: int, n: nat)
    ensures var kept := DeleteExpired(rows, cutoff, n);
            && |rows| - n <= |kept| <= |rows|
            && (|kept| == |rows| - n || forall r | r in kept :: r.time >= cutoff)
  {
    if rows != [] && n > 0 {
      DeleteIsBatched(rows[1..], cutoff, if rows[0].time < cutoff then n - 1 else n);
    }
  }

  /** The deleted rows are the first expired ones: all of them up to some row, none after it. */
  lemma {:induction false} DeletesOldestFirst(rows: seq<Row>, cutoff: int, n: nat) returns (m: nat)
    ensures m <= |rows| && DeleteExpired(rows, cutoff, n) == Filter(rows[..m], Since(cutoff)) + rows[m..]
  {
    hide Filter;
    if rows == [] || n == 0 {
      m := 0;
      NothingFiltered(rows, Since(cutoff));
    } else {
      var head, tail := [rows[0]], rows[1..];
      var k := DeletesOldestFirst(tail, cutoff, if rows[0].time < cutoff then n - 1 else n);
      m := k + 1;
      assert rows[..m] == head + tail[..k] && rows[m..] == tail[k..];
      FilterConcat(head, tail[..k], Since(cutoff));
      FilterOne(rows[0], Since(cutoff));
    }
  }

  lemma NothingFiltered(rows: seq<Row>, p: Row -> bool)
    ensures Filter(rows[..0], p) == []
  {
  }

  function AtHour(v: View, hour: int): Row -> Key {
    (r: Row) => Key(hour, v.value(r))
  }

  /** Hours up to that of the cutoff are deleted and that hour is rebuilt from the rows. */
  ghost predicate Pruned(table: Table, result: Table, rows: seq<Row>, v: View, cutoff: int) {
    var hour := Hour(cutoff);
    forall k: Key :: Lookup(result, k) == if k.hour > hour then Lookup(table, k)
                                          else Sum(rows, Keyed(Within(cutoff, hour + HOUR), AtHour(v, hour), k), v)
  }

  method PruneTable(table: Table, rows: seq<Row>, v: View, cutoff: int) returns (result: Table)
    ensures Pruned(table, result, rows, v, cutoff)
  {
    var hour := Hour(cutoff);
    var kept := map k | k in table && k.hour > hour :: table[k];
    result := AddRows(kept, rows, Within(cutoff, hour + HOUR), AtHour(v, hour), v);
    forall k: Key | k.hour > hour {
      SumNone(rows, Keyed(Within(cutoff, hour + HOUR), AtHour(v, hour), k), v);
    }
  }

  function Max(a: int, b: int): int {
    if a < b then b else a
  }

  /** A prune after one at an earlier cutoff is right unless it steps back by more than the
      rest of its own hour; cutoffs up to 0 expire nothing. */
  predicate Harmless(earlier: Option<int>, cutoff: int) {
    earlier.None? || earlier.value <= Max(0, Hour(cutoff) + HOUR)
  }

  /** From where a table is exact after one more prune. */
  function ExactFrom(earlier: Option<int>, cutoff: int): Option<int> {
    if Harmless(earlier, cutoff) then Some(cutoff) else earlier
  }

  /** After a harmless prune the table is the GROUP BY of the unexpired rows; after any other it
      stays exact from the earlier cutoff on. */
  lemma PrunedIsGroupBy(table: Table, result: Table, before: seq<Row>, rows: seq<Row>, v: View, earlier: Option<int>, cutoff: int)
    requires Exact(table, before, v, earlier) && Pruned(table, result, rows, v, cutoff)
    requires Filter(rows, Since(cutoff)) == Filter(before, Since(cutoff))
    ensures Exact(result, rows, v, ExactFrom(earlier, cutoff))
    ensures Harmless(earlier, cutoff) ==> IsGroupBy(result, rows, Since(cutoff), v)
  {
    hide Sum, Filter, Covers, Harmless;
    forall k: Key
      ensures Covers(ExactFrom(earlier, cutoff), k.hour) ==> Lookup(result, k) == Sum(rows, Keyed(Always(), Hourly(v), k), v)
      ensures Harmless(earlier, cutoff) ==> Lookup(result, k) == Sum(rows, Keyed(Since(cutoff), Hourly(v), k), v)
    {
      CoverageMoves(earlier, cutoff, k.hour);
      if k.hour <= Hour(cutoff) || Covers(earlier, k.hour) {
        PrunedGroup(table, result, before, rows, v, cutoff, k);
      }
    }
  }

  /** Which hours a prune keeps from the table, and for which all rows are unexpired. */
  lemma CoverageMoves(earlier: Option<int>, cutoff: int, hour: int)
    ensures Harmless(earlier, cutoff) && hour > Hour(cutoff) ==> Covers(earlier, hour)
    ensures Covers(ExactFrom(earlier, cutoff), hour) ==>
              (forall r: Row | Hour(r.time) == hour :: r.time >= cutoff) && (hour > Hour(cutoff) ==> Covers(earlier, hour))
  {
  }

  /** A later hour keeps its cell, which is that of its unexpired rows if it was exact; every
      other group is rebuilt from the unexpired rows. */
  lemma PrunedGroup(table: Table, result: Table, before: seq<Row>, rows: seq<Row>, v: View, cutoff: int, k: Key)
    requires Pruned(table, result, rows, v, cutoff) && Filter(rows, Since(cutoff)) == Filter(before, Since(cutoff))
    requires k.hour > Hour(cutoff) ==> Lookup(table, k) == Sum(before, Keyed(Always(), Hourly(v), k), v)
    ensures Lookup(result, k) == Sum(rows, Keyed(Since(cutoff), Hourly(v), k), v)
    ensures (forall r: Row | Hour(r.time) == k.hour :: r.time >= cutoff) ==>
              Lookup(result, k) == Sum(rows, Keyed(Always(), Hourly(v), k), v)
  {
    hide Sum, Filter;
    var hour := Hour(cutoff);
    var any, live := Keyed(Always(), Hourly(v), k), Keyed(Since(cutoff), Hourly(v), k);
    if k.hour > hour {
      HourExpired(k.hour, cutoff);
      SumFilter(rows, Since(cutoff), any, any, v);
      SumFilter(before, Since(cutoff), any, any, v);
    } else {
      forall r | r in rows && r.time >= cutoff {
        HourRange(r.time, cutoff);
      }
      SumSame(rows, Keyed(Within(cutoff, hour + HOUR), AtHour(v, hour), k), live, v);
    }
    if forall r: Row | Hour(r.time) == k.hour :: r.time >= cutoff {
      SumSame(rows, any, live, v);
    }
  }

  lemma HourExpired(hour: int, cutoff: int)
    requires hour > Hour(cutoff)
    ensures forall r: Row | Hour(r.time) == hour :: r.time >= cutoff
  {
  }

  lemma {:induction false} LiveRowStays(rows: seq<Row>, cutoff: int, n: nat, r: Row)
    requires r in rows && r.time >= cutoff
    ensures r in DeleteExpired(rows, cutoff, n)
  {
    if n > 0 && r != rows[0] {
      LiveRowStays(rows[1..], cutoff, if rows[0].time < cutoff then n - 1 else n, r);
    }
  }

  // ----- stepping back -----

  /** A prune whose transaction committed: the bounded delete, then the table. */
  ghost predicate PruneStep(table: Table, rows: seq<Row>, result: Table, kept: seq<Row>, v: View, cutoff: int) {
    kept == DeleteExpired(rows, cutoff, RETENTION_BATCH) && Pruned(table, result, kept, v, cutoff)
  }

  /** What a table counts after a prune at one cutoff and then one at another. */
  function Counted(high: int, low: int): Row -> bool {
    (r: Row) => r.time >= low && (r.time >= high || r.time < Hour(low) + HOUR)
  }

  /** After two prunes the table is the GROUP BY of exactly the rows that are unexpired for both
      or lie in the hour that the second one rebuilt. */
  lemma TwoPrunesCount(table: Table, rows: seq<Row>, first: Table, rows1: seq<Row>, second: Table, rows2: seq<Row>,
                       v: View, high: int, low: int)
    requires Exact(table, rows, v, None)
    requires PruneStep(table, rows, first, rows1, v, high) && PruneStep(first, rows1, second, rows2, v, low)
    ensures IsGroupBy(second, rows2, Counted(high, low), v)
  {
    hide Sum, Filter, DeleteExpired;
    DeleteKeepsLive(rows, high, RETENTION_BATCH);
    DeleteKeepsLive(rows1, low, RETENTION_BATCH);
    PrunedIsGroupBy(table, first, rows, rows1, v, None, high);
    forall k: Key ensures Lookup(second, k) == Sum(rows2, Keyed(Counted(high, low), Hourly(v), k), v) {
      SecondGroup(first, rows1, second, rows2, v, high, low, k);
    }
  }

  lemma SecondGroup(first: Table, rows1: seq<Row>, second: Table, rows2: seq<Row>, v: View, high: int, low: int, k: Key)
    requires IsGroupBy(first, rows1, Since(high), v) && Pruned(first, second, rows2, v, low)
    requires Filter(rows2, Since(low)) == Filter(rows1, Since(low))
    ensures Lookup(second, k) == Sum(rows2, Keyed(Counted(high, low), Hourly(v), k), v)
  {
    hide Sum, Filter;
    var hour := Hour(low);
    var counted, high' := Keyed(Counted(high, low), Hourly(v), k), Keyed(Since(high), Hourly(v), k);
    if k.hour > hour {
      HourExpired(k.hour, low);
      forall r: Row | Hour(r.time) == k.hour ensures r.time >= hour + HOUR {
        LaterHour(r.time, low);
      }
      SumFilter(rows1, Since(low), high', high', v);
      SumFilter(rows2, Since(low), high', high', v);
      SumSame(rows2, counted, high', v);
    } else {
      forall r | r in rows2 && r.time >= low {
        HourRange(r.time, low);
      }
      SumSame(rows2, Keyed(Within(low, hour + HOUR), AtHour(v, hour), k), counted, v);
    }
  }

  lemma LaterHour(t: nat, cutoff: int)
    requires Hour(t) > Hour(cutoff)
    ensures t >= Hour(cutoff) + HOUR
  {
  }

  /** For any two cutoffs, in any order: the second prune is right for all tables and rows if and
      only if the first cutoff is at most 0 or at most the end of the second one's hour. */
  lemma StepBackRightIff(v: View, sample: Row, high: int, low: int)
    ensures Harmless(Some(high), low) <==>
            forall table: Table, rows: seq<Row>, first: Table, rows1: seq<Row>, second: Table, rows2: seq<Row> |
              Exact(table, rows, v, None)
              && PruneStep(table, rows, first, rows1, v, high) && PruneStep(first, rows1, second, rows2, v, low) ::
              IsGroupBy(second, rows2, Since(low), v)
  {
    hide Exact, PruneStep, IsGroupBy;
    if Harmless(Some(high), low) {
      forall table: Table, rows: seq<Row>, first: Table, rows1: seq<Row>, second: Table, rows2: seq<Row> |
        Exact(table, rows, v, None)
        && PruneStep(table, rows, first, rows1, v, high) && PruneStep(first, rows1, second, rows2, v, low)
        ensures IsGroupBy(second, rows2, Since(low), v)
      {
        HarmlessSteps(table, rows, first, rows1, second, rows2, v, high, low);
      }
    } else {
      var table, rows, first, rows1, second, rows2 := StepBackLoses(v, sample, high, low);
    }
  }

  lemma HarmlessSteps(table: Table, rows: seq<Row>, first: Table, rows1: seq<Row>, second: Table, rows2: seq<Row>,
                      v: View, high: int, low: int)
    requires Exact(table, rows, v, None) && Harmless(Some(high), low)
    requires PruneStep(table, rows, first, rows1, v, high) && PruneStep(first, rows1, second, rows2, v, low)
    ensures IsGroupBy(second, rows2, Since(low), v)
  {
    hide Exact, Pruned, Filter, IsGroupBy;
    DeleteKeepsLive(rows, high, RETENTION_BATCH);
    DeleteKeepsLive(rows1, low, RETENTION_BATCH);
    PrunedIsGroupBy(table, first, rows, rows1, v, None, high);
    PrunedIsGroupBy(first, second, rows1, rows2, v, Some(high), low);
  }

  /** More than a batch of rows at the end of the second cutoff's hour: the first prune leaves one
      behind and drops its hour, the second counts it as unexpired again but not in the table. */
  lemma StepBackLoses(v: View, sample: Row, high: int, low: int)
    returns (table: Table, rows: seq<Row>, first: Table, rows1: seq<Row>, second: Table, rows2: seq<Row>)
    requires !Harmless(Some(high), low)
    ensures Exact(table, rows, v, None)
    ensures PruneStep(table, rows, first, rows1, v, high) && PruneStep(first, rows1, second, rows2, v, low)
    ensures !IsGroupBy(second, rows2, Since(low), v)
  {
    hide Sum, DeleteExpired;
    var r := sample.(time := Max(0, Hour(low) + HOUR));
    var size := RETENTION_BATCH + 1;
    rows := seq(size, _ => r);
    table := OneGroup(rows, r, v);
    rows1 := DeleteExpired(rows, high, RETENTION_BATCH);
    rows2 := DeleteExpired(rows1, low, RETENTION_BATCH);
    first, second := map[], map[];
    DeleteIsBatched(rows, high, RETENTION_BATCH);
    DeletedFrom(rows, high, RETENTION_BATCH);
    DeletedFrom(rows1, low, RETENTION_BATCH);
    assert r in rows1 by { assert rows1[0] in rows; }
    LiveRowStays(rows1, low, RETENTION_BATCH, r);
    EmptyPruned(table, rows1, r, v, high);
    EmptyPruned(first, rows2, r, v, low);
    SumSome(rows2, Keyed(Since(low), Hourly(v), Hourly(v)(r)), v, r);
    assert Lookup(second, Hourly(v)(r)) != Sum(rows2, Keyed(Since(low), Hourly(v), Hourly(v)(r)), v);
  }

  /** The exact table of rows that are all alike. */
  lemma OneGroup(rows: seq<Row>, r: Row, v: View) returns (table: Table)
    requires rows != [] && forall x | x in rows :: x == r
    ensures Exact(table, rows, v, None) && table.Keys == {Hourly(v)(r)}
  {
    hide Sum;
    var k := Hourly(v)(r);
    SumSome(rows, Keyed(Always(), Hourly(v), k), v, rows[0]);
    table := map[k := Sum(rows, Keyed(Always(), Hourly(v), k), v).value];
    forall other: Key | other != k ensures Sum(rows, Keyed(Always(), Hourly(v), other), v) == None {
      SumNone(rows, Keyed(Always(), Hourly(v), other), v);
    }
  }

  /** Pruning leaves an empty table when all rows lie outside the rebuilt range and no later hour
      is in the table. */
  lemma EmptyPruned(table: Table, rows: seq<Row>, r: Row, v: View, cutoff: int)
    requires (forall x | x in rows :: x == r) && !Within(cutoff, Hour(cutoff) + HOUR)(r)
    requires forall k | k in table :: k.hour <= Hour(cutoff)
    ensures Pruned(table, map[], rows, v, cutoff)
  {
    hide Sum;
    var rebuilt, hour := Within(cutoff, Hour(cutoff) + HOUR), Hour(cutoff);
    forall k: Key {
      SumNone(rows, Keyed(rebuilt, AtHour(v, hour), k), v);
    }
  }

  lemma {:induction false} DeletedFrom(rows: seq<Row>, cutoff: int, n: nat)
    ensures forall r | r in DeleteExpired(rows, cutoff, n) :: r in rows
  {
    if rows != [] && n > 0 {
      DeletedFrom(rows[1..], cutoff, if rows[0].time < cutoff then n - 1 else n);
    }
  }

  // ----- the rolling window -----

  /** Every committed row that is not older than the highest cutoff is still there. */
  ghost predicate Retained(rows: seq<Row>, committed: seq<Row>, highest: Option<int>) {
    if highest.None? then rows == committed
    else Filter(rows, Since(highest.value)) == Filter(committed, Since(highest.value))
  }

  /** No prune has deleted rows from a given time on. */
  predicate Reaches(highest: Option<int>, from: int) {
    highest.None? || highest.value <= Max(0, from)
  }

  lemma RetainedSum(rows: seq<Row>, committed: seq<Row>, highest: Option<int>, from: int, p: Row -> bool, v: View)
    requires Retained(rows, committed, highest) && Reaches(highest, from)
    requires forall r | p(r) :: r.time >= from
    ensures Sum(rows, p, v) == Sum(committed, p, v)
  {
    hide Sum, Filter;
    if highest.Some? {
      SumFilter(rows, Since(highest.value), p, p, v);
      SumFilter(committed, Since(highest.value), p, p, v);
    }
  }

  /** The retained rows from a time on count all committed ones, for all rows, if and only if the
      highest cutoff is at most 0 or at most that time. */
  lemma RetainedCountsIff(v: View, sample: Row, highest: int, from: int)
    ensures Reaches(Some(highest), from) <==>
            forall rows: seq<Row>, committed: seq<Row> | Retained(rows, committed, Some(highest)) ::
              Sum(rows, Since(from), v) == Sum(committed, Since(from), v)
  {
    hide Sum;
    if Reaches(Some(highest), from) {
      forall rows: seq<Row>, committed: seq<Row> | Retained(rows, committed, Some(highest))
        ensures Sum(rows, Since(from), v) == Sum(committed, Since(from), v)
      {
        RetainedSum(rows, committed, Some(highest), from, Since(from), v);
      }
    } else {
      var r := sample.(time := Max(0, from));
      FilterOne(r, Since(highest));
      assert Retained([], [r], Some(highest));
      SumSome([r], Since(from), v, r);
      SumNone([], Since(from), v);
    }
  }

  /** The rows of the keys in done. */
  function InKeys(v: View, done: set<Key>): Row -> bool {
    (r: Row) => Hourly(v)(r) in done
  }

  function FromHour(hour: int): Row -> bool {
    (r: Row) => Hour(r.time) >= hour
  }

  /** SELECT value, SUM(count) FROM table WHERE hour >= from GROUP BY value. */
  method SumTable(table: Table, from: int, v: View, ghost rows: seq<Row>) returns (counts: map<string, Cell>)
    requires forall k: Key | k.hour >= from :: Lookup(table, k) == Sum(rows, Keyed(Always(), Hourly(v), k), v)
    ensures forall value: string :: Lookup(counts, value) == Sum(rows, Keyed(FromHour(from), v.value, value), v)
  {
    hide Sum;
    var wanted := set k | k in table && k.hour >= from;
    counts := map[];
    var left := wanted;
    forall value: string {
      SumNone(rows, Keyed(InKeys(v, {}), v.value, value), v);
    }
    assert wanted - left == {};
    while left != {}
      invariant left <= wanted
      invariant forall value: string ::
                  Lookup(counts, value) == Sum(rows, Keyed(InKeys(v, wanted - left), v.value, value), v)
    {
      var k :| k in left;
      ghost var done := wanted - left;
      forall value: string {
        AddKey(rows, v, done, k, value);
      }
      assert wanted - (left - {k}) == done + {k};
      counts := counts[k.value := Plus(Lookup(counts, k.value), Some(table[k])).value];
      left := left - {k};
    }
    assert wanted - left == wanted;
    AllKeys(rows, v, wanted, table, from);
  }

  /** One more key adds its cell to its own value and nothing to the others. */
  lemma AddKey(rows: seq<Row>, v: View, done: set<Key>, k: Key, value: string)
    requires k !in done
    ensures Sum(rows, Keyed(InKeys(v, done + {k}), v.value, value), v)
            == Plus(Sum(rows, Keyed(InKeys(v, done), v.value, value), v),
                    if value == k.value then Sum(rows, Keyed(Always(), Hourly(v), k), v) else None)
  {
    hide Sum;
    var more, less := Keyed(InKeys(v, done + {k}), v.value, value), Keyed(InKeys(v, done), v.value, value);
    if value == k.value {
      SumSplit(rows, more, less, Keyed(Always(), Hourly(v), k), v);
    } else {
      forall r | r in rows ensures more(r) == less(r) {
        assert Hourly(v)(r).value == v.value(r);
      }
      SumSame(rows, more, less, v);
    }
  }

  lemma AllKeys(rows: seq<Row>, v: View, wanted: set<Key>, table: Table, from: int)
    requires forall k :: k in wanted <==> k in table && k.hour >= from
    requires forall k: Key | k.hour >= from :: Lookup(table, k) == Sum(rows, Keyed(Always(), Hourly(v), k), v)
    ensures forall value: string :: Sum(rows, Keyed(InKeys(v, wanted), v.value, value), v)
                                    == Sum(rows, Keyed(FromHour(from), v.value, value), v)
  {
    hide Sum;
    forall value: string
      ensures Sum(rows, Keyed(InKeys(v, wanted), v.value, value), v)
              == Sum(rows, Keyed(FromHour(from), v.value, value), v)
    {
      forall r | r in rows
        ensures Keyed(InKeys(v, wanted), v.value, value)(r) == Keyed(FromHour(from), v.value, value)(r)
      {
        SumSome(rows, Keyed(Always(), Hourly(v), Hourly(v)(r)), v, r);
      }
      SumSame(rows, Keyed(InKeys(v, wanted), v.value, value), Keyed(FromHour(from), v.value, value), v);
    }
  }

  /** Whole hours from the table, the cutoff hour from the rows, the rest from the queue: each
      event of the last 24 hours, committed or pending, counts exactly once. */
  method Window(table: Table, rows: seq<Row>, pending: seq<Row>, v: View, now: int,
                ghost committed: seq<Row>, ghost from: Option<int>, ghost highest: Option<int>)
    returns (counts: map<string, Cell>)
    requires Exact(table, rows, v, from) && Reaches(from, now - DAY)
    requires Retained(rows, committed, highest) && Reaches(highest, now - DAY)
    ensures forall value: string ::
              Lookup(counts, value) == Sum(committed + pending, Keyed(Since(now - DAY), v.value, value), v)
  {
    hide Sum, Filter;
    var cutoff := now - DAY;
    var complete := Hour(cutoff) + HOUR;
    forall hour | hour >= complete ensures Covers(from, hour) {
      WindowCovered(from, cutoff, hour);
    }
    counts := SumTable(table, complete, v, rows);
    counts := AddRows(counts, rows, Within(cutoff, complete), v.value, v);
    counts := AddRows(counts, pending, Since(cutoff), v.value, v);
    forall value: string {
      WindowParts(rows, committed, pending, v, highest, cutoff, value);
    }
  }

  lemma WindowParts(rows: seq<Row>, committed: seq<Row>, pending: seq<Row>, v: View, highest: Option<int>, cutoff: int, value: string)
    requires Retained(rows, committed, highest) && Reaches(highest, cutoff)
    ensures Sum(committed + pending, Keyed(Since(cutoff), v.value, value), v)
            == Plus(Plus(Sum(rows, Keyed(FromHour(Hour(cutoff) + HOUR), v.value, value), v),
                         Sum(rows, Keyed(Within(cutoff, Hour(cutoff) + HOUR), v.value, value), v)),
                    Sum(pending, Keyed(Since(cutoff), v.value, value), v))
  {
    hide Sum, Filter;
    var live := Keyed(Since(cutoff), v.value, value);
    SumConcat(committed, pending, live, v);
    RetainedSum(rows, committed, highest, cutoff, live, v);
    forall r: Row ensures Hour(r.time) >= Hour(cutoff) + HOUR <==> r.time >= Hour(cutoff) + HOUR {
      WholeHour(r.time, cutoff);
    }
    SumSplit(rows, live, Keyed(FromHour(Hour(cutoff) + HOUR), v.value, value),
             Keyed(Within(cutoff, Hour(cutoff) + HOUR), v.value, value), v);
  }

  lemma WholeHour(t: nat, cutoff: int)
    ensures Hour(t) >= Hour(cutoff) + HOUR <==> t >= Hour(cutoff) + HOUR
    ensures Hour(cutoff) + HOUR > cutoff
  {
  }

  /** The whole hours of the window are those for which the table is exact. */
  lemma WindowCovered(from: Option<int>, cutoff: int, hour: int)
    requires Reaches(from, cutoff) && hour >= Hour(cutoff) + HOUR
    ensures Covers(from, hour)
  {
  }
}
