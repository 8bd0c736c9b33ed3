/** Items of the forwarding backlog, their byte accounting, and the delivery worker as a
    transition on the queue it drains. */
module BacklogItems {

  /** seqNo identifies an item across lock releases. */
  datatype Item = Item(event: nat, size: nat, queuedAt: int, seqNo: nat)

  /** The size an event is charged: a function of the event alone. */
  type Charge = nat -> nat

  ghost predicate Charged(items: seq<Item>, charge: Charge) {
    forall x | x in items :: x.size == charge(x.event)
  }

  function Bytes(items: seq<Item>): nat {
    if items == [] then 0 else Bytes(items[..|items| - 1]) + items[|items| - 1].size
  }

  lemma {:induction false} BytesAppend(a: seq<Item>, b: seq<Item>)
    ensures Bytes(a + b) == Bytes(a) + Bytes(b)
  {
    if b == [] {
      assert a + b == a;
    } else {
      var n := |b| - 1;
      BytesAppend(a, b[..n]);
      assert (a + b)[..|a| + n] == a + b[..n];
    }
  }

  predicate Increasing(items: seq<Item>) {
    forall i, j | 0 <= i < j < |items| :: items[i].seqNo < items[j].seqNo
  }

  predicate Below(items: seq<Item>, bound: nat) {
    forall x | x in items :: x.seqNo <= bound
  }

  lemma IncreasingParts(a: seq<Item>, b: seq<Item>)
    requires Increasing(a + b)
    ensures Increasing(a) && Increasing(b)
    ensures forall x, y | x in a && y in b :: x.seqNo < y.seqNo
  {
    assert forall i | 0 <= i < |a| :: (a + b)[i] == a[i];
    assert forall j | 0 <= j < |b| :: (a + b)[|a| + j] == b[j];
  }

  lemma IncreasingJoin(a: seq<Item>, b: seq<Item>)
    requires Increasing(a) && Increasing(b) && forall x, y | x in a && y in b :: x.seqNo < y.seqNo
    ensures Increasing(a + b)
  {
  }

  /** The items whose sequence numbers are not listed. */
  function Without(items: seq<Item>, seqs: set<nat>): (r: seq<Item>)
    ensures forall x | x in r :: x in items
  {
    if items == [] then []
    else
      var rest := Without(items[..|items| - 1], seqs);
      if items[|items| - 1].seqNo in seqs then rest else rest + [items[|items| - 1]]
  }

  /** The items whose sequence numbers are listed. */
  function Among(items: seq<Item>, seqs: set<nat>): seq<Item> {
    if items == [] then []
    else
      var rest := Among(items[..|items| - 1], seqs);
      if items[|items| - 1].seqNo in seqs then rest + [items[|items| - 1]] else rest
  }

  lemma BytesSnoc(a: seq<Item>, x: Item)
    ensures Bytes(a + [x]) == Bytes(a) + x.size
  {
  }

  /** Splitting a queue by sequence number loses no item. */
  lemma {:induction false} WithoutSplits(items: seq<Item>, seqs: set<nat>)
    ensures multiset(items) == multiset(Without(items, seqs)) + multiset(Among(items, seqs))
  {
    if items != [] {
      var n := |items| - 1;
      WithoutSplits(items[..n], seqs);
      assert items == items[..n] + [items[n]];
    }
  }

  lemma {:induction false} WithoutBytes(items: seq<Item>, seqs: set<nat>)
    ensures Bytes(items) == Bytes(Without(items, seqs)) + Bytes(Among(items, seqs))
    ensures |items| == |Without(items, seqs)| + |Among(items, seqs)|
  {
    if items != [] {
      var n := |items| - 1;
      WithoutBytes(items[..n], seqs);
      BytesSnoc(Without(items[..n], seqs), items[n]);
      BytesSnoc(Among(items[..n], seqs), items[n]);
    }
  }

  /** Exactly the unlisted items stay and exactly the listed ones go. */
  lemma {:induction false} WithoutExact(items: seq<Item>, seqs: set<nat>, x: Item)
    ensures x in Without(items, seqs) <==> x in items && x.seqNo !in seqs
    ensures x in Among(items, seqs) <==> x in items && x.seqNo in seqs
  {
    if items != [] {
      var n := |items| - 1;
      WithoutExact(items[..n], seqs, x);
      assert items == items[..n] + [items[n]];
    }
  }

  /** Dropping items keeps the order. */
  lemma {:induction false} WithoutKeepsOrder(items: seq<Item>, seqs: set<nat>)
    requires Increasing(items)
    ensures Increasing(Without(items, seqs))
  {
    if items != [] {
      var n := |items| - 1;
      WithoutKeepsOrder(items[..n], seqs);
      var rest := Without(items[..n], seqs);
      forall i | 0 <= i < |rest| ensures rest[i].seqNo < items[n].seqNo {
        assert rest[i] in items[..n];
      }
    }
  }

  function SeqNos(items: seq<Item>): set<nat> {
    set x | x in items :: x.seqNo
  }

  lemma {:induction false} WithoutAll(items: seq<Item>, seqs: set<nat>)
    ensures (forall x | x in items :: x.seqNo in seqs) ==> Without(items, seqs) == []
    ensures (forall x | x in items :: x.seqNo !in seqs) ==> Without(items, seqs) == items
  {
    if items != [] {
      WithoutAll(items[..|items| - 1], seqs);
    }
  }

  lemma {:induction false} WithoutListed(items: seq<Item>, seqs: set<nat>)
    ensures forall x | x in Without(items, seqs) :: x.seqNo !in seqs
  {
    if items != [] {
      WithoutListed(items[..|items| - 1], seqs);
    }
  }

  lemma {:induction false} WithoutConcat(a: seq<Item>, b: seq<Item>, seqs: set<nat>)
    ensures Without(a + b, seqs) == Without(a, seqs) + Without(b, seqs)
  {
    if b == [] {
      assert a + b == a;
    } else {
      var n := |b| - 1;
      WithoutConcat(a, b[..n], seqs);
      assert (a + b)[..|a| + n] == a + b[..n];
    }
  }

  /** Removing the sequence numbers of a prefix leaves the rest of the queue. */
  lemma WithoutPrefix(items: seq<Item>, k: nat)
    requires k <= |items| && Increasing(items)
    ensures Without(items, SeqNos(items[..k])) == items[k..]
  {
    var seqs := SeqNos(items[..k]);
    assert items == items[..k] + items[k..];
    IncreasingParts(items[..k], items[k..]);
    WithoutAll(items[..k], seqs);
    WithoutAll(items[k..], seqs);
    WithoutConcat(items[..k], items[k..], seqs);
  }

  // ----- how the queues move -----

  datatype Queues = Queues(inFlight: seq<Item>, backlog: seq<Item>)

  datatype Move = Take(n: nat) | Finish | Requeue | Enqueue(x: Item)

  function Moved(q: Queues, m: Move): Queues {
    match m
    case Take(n) => if q.inFlight == [] && n <= |q.backlog| then Queues(q.backlog[..n], q.backlog[n..]) else q
    case Finish => Queues([], q.backlog)
    case Requeue => Queues([], q.inFlight + q.backlog)
    case Enqueue(x) => Queues(q.inFlight, q.backlog + [x])
  }

  // ----- the delivery worker -----

  const MIN_BATCH: nat := 10
  const MAX_BATCH: nat := 100

  /** What the controller answered; a retryable failure may ask for smaller batches. */
  datatype Outcome = Delivered | Permanent | Retryable(tooLarge: bool)

  /** Everything the worker still has to deliver, oldest first. */
  datatype Worker = Worker(queue: seq<Item>, attempts: nat, adaptive: nat)

  function Min(a: nat, b: nat): nat { if a < b then a else b }

  function Max(a: nat, b: nat): nat { if a < b then b else a }

  /** As large as asked for, within ten and a hundred, or the whole queue if that is shorter. */
  function BatchSize(queued: nat, adaptive: nat): (n: nat)
    ensures n <= queued && n <= 100 && (queued > 0 ==> n > 0) && (n < 10 ==> n == queued)
    ensures 10 <= adaptive <= 100 && adaptive <= queued ==> n == adaptive
    ensures n < queued && n != adaptive ==> (adaptive < 10 && n == 10) || (adaptive > 100 && n == 100)
  {
    Min(queued, Min(Max(adaptive, MIN_BATCH), MAX_BATCH))
  }

  /** The batch leaves the queue when delivered, rejected for good, or out of retries. */
  predicate Leaves(attempts: nat, maxRetries: nat, o: Outcome) {
    !o.Retryable? || (maxRetries > 0 && attempts >= maxRetries)
  }

  /** One send of the oldest batch. */
  function Attempt(w: Worker, maxRetries: nat, o: Outcome): Worker {
    var n := BatchSize(|w.queue|, w.adaptive);
    if Leaves(w.attempts, maxRetries, o) then
      Worker(w.queue[n..], 0, if o.Delivered? then Min(MAX_BATCH, n + 25) else w.adaptive)
    else
      Worker(w.queue, w.attempts + 1, if o.tooLarge then Max(MIN_BATCH, n / 2) else w.adaptive)
  }

  /** Sends until the queue is empty or the outcomes are used up. */
  function Deliver(w: Worker, maxRetries: nat, outcomes: seq<Outcome>): Worker
    decreases |outcomes|
  {
    if outcomes == [] || w.queue == [] then w
    else Deliver(Attempt(w, maxRetries, outcomes[0]), maxRetries, outcomes[1..])
  }

  /** What one send does to the queue: the batch leaves when it was delivered or rejected for good,
      and on a retryable failure exactly when a limited worker has no retries left. */
  lemma AttemptQueue(w: Worker, maxRetries: nat, o: Outcome)
    ensures o.Retryable? && (maxRetries == 0 || w.attempts < maxRetries) ==>
              Attempt(w, maxRetries, o).queue == w.queue && Attempt(w, maxRetries, o).attempts == w.attempts + 1
    ensures !(o.Retryable? && (maxRetries == 0 || w.attempts < maxRetries)) ==>
              && Attempt(w, maxRetries, o).queue == w.queue[BatchSize(|w.queue|, w.adaptive)..]
              && Attempt(w, maxRetries, o).attempts == 0
  {
  }

  ghost predicate AllRetryable(outcomes: seq<Outcome>) {
    forall o | o in outcomes :: o.Retryable?
  }

  /** A batch survives as many retryable failures as there are retries left, all of them when
      the number is unlimited. */
  lemma {:induction false} FailuresKeepBatch(w: Worker, maxRetries: nat, outcomes: seq<Outcome>)
    requires AllRetryable(outcomes) && (maxRetries == 0 || w.attempts + |outcomes| <= maxRetries)
    ensures Deliver(w, maxRetries, outcomes).queue == w.queue
    ensures w.queue != [] ==> Deliver(w, maxRetries, outcomes).attempts == w.attempts + |outcomes|
    decreases |outcomes|
  {
    if outcomes != [] && w.queue != [] {
      assert outcomes[0].Retryable? && forall o | o in outcomes[1..] :: o in outcomes;
      FailuresKeepBatch(Attempt(w, maxRetries, outcomes[0]), maxRetries, outcomes[1..]);
    }
  }

  lemma {:induction false} DeliverSnoc(w: Worker, maxRetries: nat, outcomes: seq<Outcome>, o: Outcome)
    ensures var before := Deliver(w, maxRetries, outcomes);
            Deliver(w, maxRetries, outcomes + [o]) == if before.queue == [] then before else Attempt(before, maxRetries, o)
    decreases |outcomes|
  {
    if outcomes == [] {
      assert Deliver(Attempt(w, maxRetries, o), maxRetries, []) == Attempt(w, maxRetries, o);
      assert (outcomes + [o])[1..] == [];
    } else if w.queue != [] {
      assert (outcomes + [o])[1..] == outcomes[1..] + [o];
      DeliverSnoc(Attempt(w, maxRetries, outcomes[0]), maxRetries, outcomes[1..], o);
    }
  }

  /** A batch that only ever fails in a retryable way is dropped by its failure number
      maxRetries + 1, by no earlier one, and by none when retries are unlimited. */
  lemma DroppedExactlyAtLimit(w: Worker, maxRetries: nat, outcomes: seq<Outcome>)
    requires w.queue != [] && w.attempts == 0 && AllRetryable(outcomes)
    ensures maxRetries == 0 || |outcomes| <= maxRetries ==> Deliver(w, maxRetries, outcomes).queue == w.queue
    ensures maxRetries > 0 && |outcomes| == maxRetries + 1 ==>
              var last := Deliver(w, maxRetries, outcomes[..maxRetries]);
              Deliver(w, maxRetries, outcomes).queue == w.queue[BatchSize(|w.queue|, last.adaptive)..]
  {
    if maxRetries == 0 || |outcomes| <= maxRetries {
      FailuresKeepBatch(w, maxRetries, outcomes);
    } else if |outcomes| == maxRetries + 1 {
      var first := outcomes[..maxRetries];
      assert outcomes == first + [outcomes[maxRetries]];
      FailuresKeepBatch(w, maxRetries, first);
      DeliverSnoc(w, maxRetries, first, outcomes[maxRetries]);
      AttemptQueue(Deliver(w, maxRetries, first), maxRetries, outcomes[maxRetries]);
    }
  }

  /** Sends still needed in the worst case. */
  function Fuel(w: Worker, maxRetries: nat): int {
    |w.queue| * (maxRetries + 1) - w.attempts
  }

  lemma AttemptBurnsFuel(w: Worker, maxRetries: nat, o: Outcome)
    requires maxRetries > 0 && w.attempts <= maxRetries && w.queue != []
    ensures var w' := Attempt(w, maxRetries, o);
            w'.attempts <= maxRetries && 0 <= Fuel(w', maxRetries) < Fuel(w, maxRetries)
  {
    RemoveBatch(|w.queue|, BatchSize(|w.queue|, w.adaptive), maxRetries + 1);
  }

  lemma RemoveBatch(length: nat, n: nat, perItem: nat)
    requires 1 <= n <= length
    ensures 0 <= (length - n) * perItem <= length * perItem - perItem
  {
    assert length * perItem == (length - n) * perItem + n * perItem;
    assert n * perItem == (n - 1) * perItem + perItem;
  }

  lemma {:induction false} DeliverDrains(w: Worker, maxRetries: nat, outcomes: seq<Outcome>)
    requires maxRetries > 0 && w.attempts <= maxRetries && |outcomes| >= Fuel(w, maxRetries)
    ensures Deliver(w, maxRetries, outcomes).queue == []
    decreases |outcomes|
  {
    if w.queue != [] {
      assert |w.queue| * (maxRetries + 1) >= maxRetries + 1;
      AttemptBurnsFuel(w, maxRetries, outcomes[0]);
      DeliverDrains(Attempt(w, maxRetries, outcomes[0]), maxRetries, outcomes[1..]);
    }
  }

  function Failures(n: nat): (r: seq<Outcome>)
    ensures |r| == n
  {
    if n == 0 then [] else [Retryable(false)] + Failures(n - 1)
  }

  lemma {:induction false} FailuresKeepQueue(w: Worker, n: nat)
    ensures Deliver(w, 0, Failures(n)).queue == w.queue
    decreases n
  {
    if n > 0 && w.queue != [] {
      var next := Attempt(w, 0, Retryable(false));
      FailuresKeepQueue(next, n - 1);
      assert Failures(n)[1..] == Failures(n - 1);
    }
  }

  /** Whatever the controller answers, a waiting queue empties within
      length * (maxRetries + 1) sends exactly when the number of retries is limited. */
  lemma DrainsIffRetriesLimited(w: Worker, maxRetries: nat)
    requires w.queue != [] && w.attempts == 0
    ensures maxRetries > 0 <==>
            forall outcomes: seq<Outcome> | |outcomes| == |w.queue| * (maxRetries + 1) ::
              Deliver(w, maxRetries, outcomes).queue == []
  {
    if maxRetries > 0 {
      forall outcomes: seq<Outcome> | |outcomes| == |w.queue| * (maxRetries + 1)
        ensures Deliver(w, maxRetries, outcomes).queue == []
      {
        DeliverDrains(w, maxRetries, outcomes);
      }
    } else {
      FailuresKeepQueue(w, |w.queue|);
    }
  }
}
