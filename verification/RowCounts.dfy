/** What the sums over rows mean: plain numbers of rows. */
module RowCounts {
  import opened Options
  import opened HourlyTables

  ghost function At(rows: seq<Row>, p: Row -> bool): set<nat> {
    set i: nat | i < |rows| && p(rows[i])
  }

  function Both(p: Row -> bool, q: Row -> bool): Row -> bool {
    (r: Row) => p(r) && q(r)
  }

  lemma AtSnoc(rows: seq<Row>, r: Row, p: Row -> bool)
    ensures |At(rows + [r], p)| == |At(rows, p)| + if p(r) then 1 else 0
  {
    assert At(rows + [r], p) == At(rows, p) + if p(r) then {|rows|} else {};
  }

  /** One row counts once, and once for each of the three marks that it bears. */
  ghost predicate Marks(v: View, hit: Row -> bool, reply: Row -> bool, blocked: Row -> bool) {
    forall r :: v.cell(r) == Cell(1, if hit(r) then 1 else 0, if reply(r) then 1 else 0, if blocked(r) then 1 else 0)
  }

  ghost function Numbers(rows: seq<Row>, p: Row -> bool, hit: Row -> bool, reply: Row -> bool, blocked: Row -> bool): Option<Cell> {
    if |At(rows, p)| == 0 then None
    else Some(Cell(|At(rows, p)|, |At(rows, Both(p, hit))|, |At(rows, Both(p, reply))|, |At(rows, Both(p, blocked))|))
  }

  lemma NoneMarked(rows: seq<Row>, p: Row -> bool, q: Row -> bool)
    requires |At(rows, p)| == 0
    ensures |At(rows, Both(p, q))| == 0
  {
    assert At(rows, Both(p, q)) <= At(rows, p);
  }

  /** A sum of marked cells is the numbers of selected rows that bear the marks. */
  lemma {:induction false} SumIsNumbers(rows: seq<Row>, p: Row -> bool, v: View,
                                        hit: Row -> bool, reply: Row -> bool, blocked: Row -> bool)
    requires Marks(v, hit, reply, blocked)
    ensures Sum(rows, p, v) == Numbers(rows, p, hit, reply, blocked)
  {
    if rows == [] {
      assert At(rows, p) == {};
    } else {
      var n := |rows| - 1;
      SumIsNumbers(rows[..n], p, v, hit, reply, blocked);
      assert rows == rows[..n] + [rows[n]];
      hide At;
      NumbersSnoc(rows[..n], rows[n], p, hit, reply, blocked);
    }
  }

  lemma NumbersSnoc(rows: seq<Row>, r: Row, p: Row -> bool, hit: Row -> bool, reply: Row -> bool, blocked: Row -> bool)
    ensures Numbers(rows + [r], p, hit, reply, blocked)
            == Plus(Numbers(rows, p, hit, reply, blocked),
                    if p(r) then Some(Cell(1, if hit(r) then 1 else 0, if reply(r) then 1 else 0, if blocked(r) then 1 else 0))
                    else None)
  {
    AtSnoc(rows, r, p);
    AtSnoc(rows, r, Both(p, hit));
    AtSnoc(rows, r, Both(p, reply));
    AtSnoc(rows, r, Both(p, blocked));
    if |At(rows, p)| == 0 {
      hide At;
      NoneMarked(rows, p, hit);
      NoneMarked(rows, p, reply);
      NoneMarked(rows, p, blocked);
    }
  }

  function Never(): Row -> bool {
    (r: Row) => false
  }

  /** The sum of a view that only counts. */
  lemma SumIsNumber(rows: seq<Row>, p: Row -> bool, v: View)
    requires Marks(v, Never(), Never(), Never())
    ensures Sum(rows, p, v) == if |At(rows, p)| == 0 then None else Some(Cell(|At(rows, p)|, 0, 0, 0))
  {
    SumIsNumbers(rows, p, v, Never(), Never(), Never());
    assert At(rows, Both(p, Never())) == {};
  }
}
