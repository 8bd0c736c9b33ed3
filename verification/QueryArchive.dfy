/** The archive database: the row table with its four hourly aggregate tables. */
module QueryArchive {
  import opened Options
  import opened HourlyTables
  import opened RowCounts

  function One(): Row -> Cell {
    (r: Row) => Cell(1, 0, 0, 0)
  }

  function Totals(): View {
    View((r: Row) => "", (r: Row) => Cell(1, if r.hit then 1 else 0, if r.upstream != "" then 1 else 0, if r.blocked then 1 else 0))
  }

  function Domains(): View {
    View((r: Row) => r.domain, One())
  }

  function Clients(): View {
    View((r: Row) => r.client, One())
  }

  function Kinds(): View {
    View((r: Row) => r.kind, One())
  }

  class Database {
    var rows: seq<Row>
    var totals: Table
    var domains: Table
    var clients: Table
    var kinds: Table

    /** All rows ever committed, the highest cutoff of a committed prune, and the cutoff from
        which on the tables are exact. */
    ghost var committed: seq<Row>
    ghost var highest: Option<int>
    ghost var exactFrom: Option<int>

    ghost predicate Valid()
      reads this
    {
      && Retained(rows, committed, highest) && UpTo(exactFrom, highest)
      && Exact(totals, rows, Totals(), exactFrom) && Exact(domains, rows, Domains(), exactFrom)
      && Exact(clients, rows, Clients(), exactFrom) && Exact(kinds, rows, Kinds(), exactFrom)
    }

    /** Each table counts the rows from the cutoff on: per hour, and per hour and value. */
    ghost predicate CountsSince(cutoff: int)
      reads this
    {
      forall hour: int, value: string :: CellsCount(cutoff, hour, value)
    }

    ghost predicate CellsCount(cutoff: int, hour: int, value: string)
      reads this
    {
      var at := set i | 0 <= i < |rows| && rows[i].time >= cutoff && Hour(rows[i].time) == hour;
      && Lookup(totals, Key(hour, value))
         == (if at == {} || value != "" then None
             else Some(Cell(|at|, |set i | i in at && rows[i].hit|,
                            |set i | i in at && rows[i].upstream != ""|, |set i | i in at && rows[i].blocked|)))
      && Lookup(domains, Key(hour, value)) == Numbered(set i | i in at && rows[i].domain == value)
      && Lookup(clients, Key(hour, value)) == Numbered(set i | i in at && rows[i].client == value)
      && Lookup(kinds, Key(hour, value)) == Numbered(set i | i in at && rows[i].kind == value)
    }

    constructor ()
      ensures Valid() && rows == committed == [] && highest == exactFrom == None
    {
      rows, totals, domains, clients, kinds := [], map[], map[], map[], map[];
      committed, highest, exactFrom := [], None, None;
    }

    /** One transaction: rows and aggregates, or nothing. */
    method InsertBatch(events: seq<Row>, commits: bool)
      requires Valid()
      modifies this
      ensures Valid() && highest == old(highest) && exactFrom == old(exactFrom)
      ensures commits ==> rows == old(rows) + events && committed == old(committed) + events
      ensures !commits ==> rows == old(rows) && committed == old(committed)
    {
      hide Sum, Filter, Exact, Totals, Domains, Clients, Kinds;
      if !commits {
        return;
      }
      RetainedInsert(rows, committed, events, highest);
      totals := UpsertHourly(totals, events, Totals(), rows, exactFrom);
      domains := UpsertHourly(domains, events, Domains(), rows, exactFrom);
      clients := UpsertHourly(clients, events, Clients(), rows, exactFrom);
      kinds := UpsertHourly(kinds, events, Kinds(), rows, exactFrom);
      rows, committed := rows + events, committed + events;
    }

    /** One transaction at any cutoff: at most a batch of expired rows goes and, unless the cutoff
        steps back too far, every table becomes the GROUP BY of the unexpired rows. */
    method Prune(cutoff: int, commits: bool) returns (deleted: nat)
      requires Valid()
      modifies this
      ensures Valid() && committed == old(committed)
      ensures commits ==>
                && rows == DeleteExpired(old(rows), cutoff, RETENTION_BATCH)
                && highest == Some(Highest(old(highest), cutoff)) && exactFrom == ExactFrom(old(exactFrom), cutoff)
      ensures commits && Harmless(old(exactFrom), cutoff) ==>
                && IsGroupBy(totals, rows, Since(cutoff), Totals()) && IsGroupBy(domains, rows, Since(cutoff), Domains())
                && IsGroupBy(clients, rows, Since(cutoff), Clients()) && IsGroupBy(kinds, rows, Since(cutoff), Kinds())
                && CountsSince(cutoff)
      ensures !commits ==> deleted == 0 && highest == old(highest) && exactFrom == old(exactFrom) && rows == old(rows)
      ensures deleted == |old(rows)| - |rows| && deleted <= RETENTION_BATCH
      ensures commits && deleted < RETENTION_BATCH ==> forall r | r in rows :: r.time >= cutoff
    {
      hide Sum, Filter, Exact, Pruned, IsGroupBy, DeleteExpired, Totals, Domains, Clients, Kinds, Retained, ExactFrom, Harmless;
      if !commits {
        return 0;
      }
      var kept := DeleteExpired(rows, cutoff, RETENTION_BATCH);
      DeleteKeepsLive(rows, cutoff, RETENTION_BATCH);
      DeleteIsBatched(rows, cutoff, RETENTION_BATCH);
      deleted := |rows| - |kept|;
      RetainedPrune(rows, kept, committed, highest, cutoff);
      ExactUpTo(exactFrom, highest, cutoff);
      totals := Rebuild(totals, kept, Totals(), cutoff);
      domains := Rebuild(domains, kept, Domains(), cutoff);
      clients := Rebuild(clients, kept, Clients(), cutoff);
      kinds := Rebuild(kinds, kept, Kinds(), cutoff);
      rows, highest, exactFrom := kept, Some(Highest(highest, cutoff)), ExactFrom(exactFrom, cutoff);
      if Harmless(old(exactFrom), cutoff) {
        GroupsCount(cutoff);
      }
    }

    lemma GroupsCount(cutoff: int)
      requires IsGroupBy(totals, rows, Since(cutoff), Totals()) && IsGroupBy(domains, rows, Since(cutoff), Domains())
      requires IsGroupBy(clients, rows, Since(cutoff), Clients()) && IsGroupBy(kinds, rows, Since(cutoff), Kinds())
      ensures CountsSince(cutoff)
    {
      hide Sum;
      forall hour: int, value: string ensures CellsCount(cutoff, hour, value) {
        TotalsOfHour(rows, cutoff, hour, value);
        ValuesOfHour(rows, cutoff, hour, value);
      }
    }

    method Rebuild(table: Table, kept: seq<Row>, v: View, cutoff: int) returns (result: Table)
      requires Filter(kept, Since(cutoff)) == Filter(rows, Since(cutoff)) && Exact(table, rows, v, exactFrom)
      ensures Exact(result, kept, v, ExactFrom(exactFrom, cutoff))
      ensures Harmless(exactFrom, cutoff) ==> IsGroupBy(result, kept, Since(cutoff), v)
    {
      hide Sum, Filter, Exact, Pruned, IsGroupBy, Harmless;
      result := PruneTable(table, kept, v, cutoff);
      PrunedIsGroupBy(table, result, rows, kept, v, exactFrom, cutoff);
    }

    /** The rolling 24 hours: totals and query types count every committed row and every
        pending event of the window once, also those that pruning has already deleted from
        other hours. */
    method Rolling(pending: seq<Row>, now: int) returns (total: Option<Cell>, types: map<string, Cell>)
      requires Valid() && Reaches(highest, now - DAY)
      ensures var all := committed + pending;
              var window := set i | 0 <= i < |all| && all[i].time >= now - 86400;
              total == if window == {} then None
                       else Some(Cell(|window|, |set i | i in window && all[i].hit|,
                                      |set i | i in window && all[i].upstream != ""|, |set i | i in window && all[i].blocked|))
      ensures var all := committed + pending;
              forall kind: string ::
                var asked := set i | 0 <= i < |all| && all[i].time >= now - 86400 && all[i].kind == kind;
                Lookup(types, kind) == if asked == {} then None else Some(Cell(|asked|, 0, 0, 0))
    {
      hide Sum, Filter, Exact, Retained;
      ghost var all := committed + pending;
      var sums := Window(totals, rows, pending, Totals(), now, committed, exactFrom, highest);
      total := Lookup(sums, "");
      SumSame(all, Keyed(Since(now - DAY), Totals().value, ""), Since(now - DAY), Totals());
      TotalsCount(all, now - DAY);
      types := Window(kinds, rows, pending, Kinds(), now, committed, exactFrom, highest);
      forall kind: string
        ensures var asked := set i | 0 <= i < |all| && all[i].time >= now - 86400 && all[i].kind == kind;
                Lookup(types, kind) == if asked == {} then None else Some(Cell(|asked|, 0, 0, 0))
      {
        KindCount(all, now - DAY, kind);
      }
    }
  }

  /** The totals count rows, cache hits, replies from an upstream, and blocked queries. */
  lemma TotalsCount(rows: seq<Row>, from: int)
    ensures var at := set i | 0 <= i < |rows| && rows[i].time >= from;
            Sum(rows, Since(from), Totals())
            == if at == {} then None
               else Some(Cell(|at|, |set i | i in at && rows[i].hit|,
                              |set i | i in at && rows[i].upstream != ""|, |set i | i in at && rows[i].blocked|))
  {
    MarkedCount(rows, Since(from));
    assert (set i | 0 <= i < |rows| && rows[i].time >= from) == At(rows, Since(from));
  }

  ghost function Numbered(at: set<int>): Option<Cell> {
    if at == {} then None else Some(Cell(|at|, 0, 0, 0))
  }

  lemma TotalsOfHour(rows: seq<Row>, from: int, hour: int, value: string)
    ensures var at := set i | 0 <= i < |rows| && rows[i].time >= from && Hour(rows[i].time) == hour;
            Sum(rows, Keyed(Since(from), Hourly(Totals()), Key(hour, value)), Totals())
            == if at == {} || value != "" then None
               else Some(Cell(|at|, |set i | i in at && rows[i].hit|,
                              |set i | i in at && rows[i].upstream != ""|, |set i | i in at && rows[i].blocked|))
  {
    hide Sum;
    var p := Keyed(Since(from), Hourly(Totals()), Key(hour, value));
    MarkedCount(rows, p);
    if value != "" {
      assert At(rows, p) == {};
    } else {
      assert (set i | 0 <= i < |rows| && rows[i].time >= from && Hour(rows[i].time) == hour) == At(rows, p);
    }
  }

  lemma ValuesOfHour(rows: seq<Row>, from: int, hour: int, value: string)
    ensures var at := set i | 0 <= i < |rows| && rows[i].time >= from && Hour(rows[i].time) == hour;
            && Sum(rows, Keyed(Since(from), Hourly(Domains()), Key(hour, value)), Domains())
               == Numbered(set i | i in at && rows[i].domain == value)
            && Sum(rows, Keyed(Since(from), Hourly(Clients()), Key(hour, value)), Clients())
               == Numbered(set i | i in at && rows[i].client == value)
            && Sum(rows, Keyed(Since(from), Hourly(Kinds()), Key(hour, value)), Kinds())
               == Numbered(set i | i in at && rows[i].kind == value)
  {
    hide Sum;
    var at := set i | 0 <= i < |rows| && rows[i].time >= from && Hour(rows[i].time) == hour;
    SumIsNumber(rows, Keyed(Since(from), Hourly(Domains()), Key(hour, value)), Domains());
    assert At(rows, Keyed(Since(from), Hourly(Domains()), Key(hour, value))) == set i | i in at && rows[i].domain == value;
    SumIsNumber(rows, Keyed(Since(from), Hourly(Clients()), Key(hour, value)), Clients());
    assert At(rows, Keyed(Since(from), Hourly(Clients()), Key(hour, value))) == set i | i in at && rows[i].client == value;
    SumIsNumber(rows, Keyed(Since(from), Hourly(Kinds()), Key(hour, value)), Kinds());
    assert At(rows, Keyed(Since(from), Hourly(Kinds()), Key(hour, value))) == set i | i in at && rows[i].kind == value;
  }

  lemma MarkedCount(rows: seq<Row>, p: Row -> bool)
    ensures var at := At(rows, p);
            Sum(rows, p, Totals())
            == if at == {} then None
               else Some(Cell(|at|, |set i | i in at && rows[i].hit|,
                              |set i | i in at && rows[i].upstream != ""|, |set i | i in at && rows[i].blocked|))
  {
    hide Sum;
    var hit, reply, blocked := (r: Row) => r.hit, (r: Row) => r.upstream != "", (r: Row) => r.blocked;
    SumIsNumbers(rows, p, Totals(), hit, reply, blocked);
    var at := At(rows, p);
    assert (set i | i in at && rows[i].hit) == At(rows, Both(p, hit));
    assert (set i | i in at && rows[i].upstream != "") == At(rows, Both(p, reply));
    assert (set i | i in at && rows[i].blocked) == At(rows, Both(p, blocked));
  }

  lemma KindCount(rows: seq<Row>, from: int, kind: string)
    ensures var asked := set i | 0 <= i < |rows| && rows[i].time >= from && rows[i].kind == kind;
            Sum(rows, Keyed(Since(from), Kinds().value, kind), Kinds())
            == if asked == {} then None else Some(Cell(|asked|, 0, 0, 0))
  {
    hide Sum;
    var p := Keyed(Since(from), Kinds().value, kind);
    SumIsNumber(rows, p, Kinds());
    assert (set i | 0 <= i < |rows| && rows[i].time >= from && rows[i].kind == kind) == At(rows, p);
  }

  predicate UpTo(a: Option<int>, b: Option<int>) {
    a.Some? ==> b.Some? && a.value <= b.value
  }

  function Highest(highest: Option<int>, cutoff: int): int {
    if highest.None? then cutoff else Max(highest.value, cutoff)
  }

  lemma ExactUpTo(exactFrom: Option<int>, highest: Option<int>, cutoff: int)
    requires UpTo(exactFrom, highest)
    ensures UpTo(ExactFrom(exactFrom, cutoff), Some(Highest(highest, cutoff)))
  {
  }

  lemma RetainedInsert(rows: seq<Row>, committed: seq<Row>, events: seq<Row>, highest: Option<int>)
    requires Retained(rows, committed, highest)
    ensures Retained(rows + events, committed + events, highest)
  {
    if highest.Some? {
      FilterConcat(rows, events, Since(highest.value));
      FilterConcat(committed, events, Since(highest.value));
    }
  }

  lemma RetainedPrune(rows: seq<Row>, kept: seq<Row>, committed: seq<Row>, highest: Option<int>, cutoff: int)
    requires Retained(rows, committed, highest)
    requires Filter(kept, Since(cutoff)) == Filter(rows, Since(cutoff))
    ensures Retained(kept, committed, Some(Highest(highest, cutoff)))
  {
    var high := Highest(highest, cutoff);
    FilterTwice(kept, cutoff, high);
    FilterTwice(rows, cutoff, high);
    if highest.Some? {
      FilterTwice(rows, highest.value, high);
      FilterTwice(committed, highest.value, high);
    }
  }

  lemma {:induction false} FilterTwice(rows: seq<Row>, low: int, high: int)
    requires low <= high
    ensures Filter(Filter(rows, Since(low)), Since(high)) == Filter(rows, Since(high))
  {
    if rows != [] {
      var n := |rows| - 1;
      FilterTwice(rows[..n], low, high);
      FilterConcat(Filter(rows[..n], Since(low)), if rows[n].time >= low then [rows[n]] else [], Since(high));
    }
  }

  /** A cutoff inside the window breaks the count: everything may be pruned and consistent
      while the window still has a row. */
  lemma ShortRetentionMisses(r: Row, v: View, cutoff: int, now: int)
    requires now - DAY <= r.time < cutoff
    ensures DeleteExpired([r], cutoff, RETENTION_BATCH) == []
    ensures Retained([], [r], Some(cutoff)) && Exact(map[], [], v, Some(cutoff))
    ensures Sum([r], Keyed(Since(now - DAY), v.value, v.value(r)), v).Some?
  {
  }
}
