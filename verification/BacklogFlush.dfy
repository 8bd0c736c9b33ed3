/** A flush takes a snapshot, writes the bounded file without the lock, and then trims memory.
    Meanwhile the worker takes, finishes and returns batches, and new events arrive. */
module BacklogFlush {
  import opened BacklogItems
  import opened BacklogFile

  function AfterMoves(q: Queues, moves: seq<Move>): Queues {
    if moves == [] then q else Moved(AfterMoves(q, moves[..|moves| - 1]), moves[|moves| - 1])
  }

  /** The events that arrive during the moves. */
  function Arrived(moves: seq<Move>): seq<Item> {
    if moves == [] then []
    else
      var last := moves[|moves| - 1];
      Arrived(moves[..|moves| - 1]) + if last.Enqueue? then [last.x] else []
  }

  function Pending(q: Queues): seq<Item> {
    q.inFlight + q.backlog
  }

  function NewItem(m: Move): seq<Item> {
    if m.Enqueue? then [m.x] else []
  }

  /** One move removes some of the oldest pending items, or none, and may add one at the end. */
  lemma MovedPending(q: Queues, m: Move) returns (gone: nat)
    ensures gone <= |Pending(q)| && Pending(Moved(q, m)) == Pending(q)[gone..] + NewItem(m)
  {
    gone := if m.Finish? then |q.inFlight| else 0;
    if m.Take? && q.inFlight == [] && m.n <= |q.backlog| {
      assert q.backlog[..m.n] + q.backlog[m.n..] == q.backlog;
    }
  }

  lemma SuffixGrows(all: seq<Item>, gone: nat, more: nat, added: seq<Item>)
    requires gone <= |all| && more <= |all| - gone
    ensures all[gone..][more..] + added == (all + added)[gone + more..]
  {
  }

  /** Whatever happens, what is pending is a suffix of all that was and all that came. */
  lemma {:induction false} PendingIsSuffix(q: Queues, moves: seq<Move>) returns (gone: nat)
    ensures gone <= |Pending(q) + Arrived(moves)|
    ensures Pending(AfterMoves(q, moves)) == (Pending(q) + Arrived(moves))[gone..]
  {
    hide Pending, Moved;
    if moves == [] {
      gone := 0;
    } else {
      var n := |moves| - 1;
      var all := Pending(q) + Arrived(moves[..n]);
      var g := PendingIsSuffix(q, moves[..n]);
      var more := MovedPending(AfterMoves(q, moves[..n]), moves[n]);
      SuffixGrows(all, g, more, NewItem(moves[n]));
      assert all + NewItem(moves[n]) == Pending(q) + Arrived(moves);
      gone := g + more;
    }
  }

  lemma WithoutMiddle(head: seq<Item>, body: seq<Item>, tail: seq<Item>, seqs: set<nat>)
    requires forall x | x in head || x in tail :: x.seqNo !in seqs
    requires forall x | x in body :: x.seqNo in seqs
    ensures Without(head + (body + tail), seqs) == head + tail
  {
    hide Without;
    WithoutConcat(head, body + tail, seqs);
    WithoutConcat(body, tail, seqs);
    WithoutAll(head, seqs);
    WithoutAll(body, seqs);
    WithoutAll(tail, seqs);
  }

  lemma OutsideRange(items: seq<Item>, a: nat, b: nat, i: nat)
    requires Increasing(items) && a <= b <= |items| && i < |items|
    ensures items[i].seqNo in SeqNos(items[a..b]) <==> a <= i < b
  {
    if a <= i < b {
      assert items[a..b][i - a] == items[i];
    }
    forall y | y in items[a..b] && y.seqNo == items[i].seqNo ensures a <= i < b {
      var j :| 0 <= j < b - a && items[a..b][j] == y;
      assert items[a + j] == y;
    }
  }

  /** The part of a file, which omits the items from a to b, that comes from position h on. */
  function FileFrom(items: seq<Item>, a: nat, b: nat, h: nat): seq<Item>
    requires a <= b <= |items| && h <= |items|
  {
    (if h <= a then items[h..a] else []) + items[if h <= b then b else h..]
  }

  lemma Pieces(items: seq<Item>, h: nat, lo: nat, hi: nat)
    requires h <= lo <= hi <= |items|
    ensures items[h..] == items[h..lo] + (items[lo..hi] + items[hi..])
  {
  }

  /** Removing a range of sequence numbers from a suffix leaves the suffix without the range. */
  lemma WithoutRange(items: seq<Item>, a: nat, b: nat, h: nat)
    requires Increasing(items) && a <= b <= |items| && h <= |items|
    ensures Without(items[h..], SeqNos(items[a..b])) == FileFrom(items, a, b, h)
  {
    hide Increasing, Without, SeqNos;
    var seqs := SeqNos(items[a..b]);
    var lo, hi := if h <= a then a else h, if h <= b then b else h;
    var head, body, tail := items[h..lo], items[lo..hi], items[hi..];
    forall i | 0 <= i < |items| ensures items[i].seqNo in seqs <==> a <= i < b {
      OutsideRange(items, a, b, i);
    }
    Pieces(items, h, lo, hi);
    WithoutMiddle(head, body, tail, seqs);
  }

  lemma FileFromIsSuffix(items: seq<Item>, a: nat, b: nat, h: nat) returns (filed: nat)
    requires a <= b <= |items| && h <= |items|
    ensures filed <= |items[..a] + items[b..]|
    ensures (items[..a] + items[b..])[|items[..a] + items[b..]| - filed..] == FileFrom(items, a, b, h)
  {
    filed := |FileFrom(items, a, b, h)|;
  }

  /** A queue that ends in new events, trimmed. */
  lemma TrimmedTail(items: seq<Item>, arrived: seq<Item>, a: nat, b: nat, h: nat) returns (filed: nat, came: nat)
    requires Increasing(items) && a <= b <= |items| && h <= |items + arrived|
    requires forall x, y | x in items && y in arrived :: x.seqNo < y.seqNo
    ensures var file := items[..a] + items[b..];
            && filed <= |file| && came <= |arrived| && (filed == 0 || came == |arrived|)
            && Without((items + arrived)[h..], SeqNos(items[a..b])) == file[|file| - filed..] + arrived[|arrived| - came..]
  {
    hide Increasing, Without;
    var seqs := SeqNos(items[a..b]);
    assert forall y | y in arrived :: y.seqNo !in seqs;
    if h <= |items| {
      assert (items + arrived)[h..] == items[h..] + arrived;
      WithoutConcat(items[h..], arrived, seqs);
      WithoutAll(arrived, seqs);
      WithoutRange(items, a, b, h);
      filed := FileFromIsSuffix(items, a, b, h);
      came := |arrived|;
    } else {
      var rest := arrived[h - |items|..];
      assert (items + arrived)[h..] == rest;
      WithoutAll(rest, seqs);
      filed, came := 0, |rest|;
    }
  }

  /** After the trim the queue is a suffix of what the file holds, followed by events that have
      arrived since the snapshot; the batch being sent is left alone. */
  lemma FlushAfterMoves(q: Queues, moves: seq<Move>, omitted: nat) returns (filed: nat, came: nat)
    requires Increasing(Pending(q)) && |q.inFlight| + omitted <= |Pending(q)|
    requires forall x, y | x in Pending(q) && y in Arrived(moves) :: x.seqNo < y.seqNo
    ensures var seqs := SeqNos(Pending(q)[|q.inFlight|..|q.inFlight| + omitted]);
            var file := KeptItems(Pending(q), |q.inFlight|, omitted);
            && filed <= |file| && came <= |Arrived(moves)| && (filed == 0 || came == |Arrived(moves)|)
            && Without(AfterMoves(q, moves).backlog, seqs)
               == file[|file| - filed..] + Arrived(moves)[|Arrived(moves)| - came..]
  {
    hide Increasing, Without, SeqNos;
    var now, all := AfterMoves(q, moves), Pending(q) + Arrived(moves);
    var gone := PendingIsSuffix(q, moves);
    var h := gone + |now.inFlight|;
    assert now.backlog == Pending(now)[|now.inFlight|..] == all[gone..][|now.inFlight|..] == all[h..];
    filed, came := TrimmedTail(Pending(q), Arrived(moves), |q.inFlight|, |q.inFlight| + omitted, h);
  }

  /** What memory may hold beyond the file and the new events: omitted items that the worker took
      before the trim.  The trim leaves none of them queued, but those in flight may return to
      the queue if their send fails. */
  lemma OnlyInFlightMissing(q: Queues, moves: seq<Move>, omitted: nat, x: Item)
    requires |q.inFlight| + omitted <= |Pending(q)|
    requires x in Pending(q) && x !in KeptItems(Pending(q), |q.inFlight|, omitted)
    ensures var seqs := SeqNos(Pending(q)[|q.inFlight|..|q.inFlight| + omitted]);
            x !in Without(AfterMoves(q, moves).backlog, seqs)
  {
    hide AfterMoves, Pending;
    WithoutListed(AfterMoves(q, moves).backlog, SeqNos(Pending(q)[|q.inFlight|..|q.inFlight| + omitted]));
    OmittedItem(Pending(q), |q.inFlight|, omitted, x);
  }

  lemma OmittedItem(items: seq<Item>, inFlight: nat, omitted: nat, x: Item)
    requires inFlight + omitted <= |items| && x in items && x !in KeptItems(items, inFlight, omitted)
    ensures x.seqNo in SeqNos(items[inFlight..inFlight + omitted])
  {
    assert items == items[..inFlight] + items[inFlight..inFlight + omitted] + items[inFlight + omitted..];
  }
}
