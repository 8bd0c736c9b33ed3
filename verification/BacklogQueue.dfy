/** The forwarder's queue: enqueue, the delivery worker, persistence trims and restore may
    interleave at method granularity, each method being one locked region. */
module BacklogQueue {
  import opened Options
  import opened BacklogItems

  /** What is kept of an item on disk; its size is charged anew when it is restored. */
  datatype Saved = Saved(event: nat, queuedAt: Option<int>)

  const CLOCK_SLACK: int := 60_000_000_000

  /** A missing timestamp, or one from the future, is replaced by the present. */
  function RestoredAt(saved: Saved, now: int): (at: int)
    ensures saved.queuedAt.Some? && saved.queuedAt.value <= now + 60_000_000_000 ==> at == saved.queuedAt.value
    ensures saved.queuedAt.None? || saved.queuedAt.value > now + 60_000_000_000 ==> at == now
  {
    if saved.queuedAt.None? || saved.queuedAt.value > now + CLOCK_SLACK then now else saved.queuedAt.value
  }

  predicate Fits(limit: int, total: int, size: nat) {
    limit <= 0 || total + size <= limit
  }

  /** Bytes are exact, never above a positive limit, and sequence numbers increase from the
      batch in flight through the queue. */
  ghost predicate Accounted(limit: int, inFlight: seq<Item>, backlog: seq<Item>, total: int, lastSeq: nat) {
    && Increasing(inFlight + backlog) && Below(inFlight + backlog, lastSeq)
    && total == Bytes(inFlight + backlog)
    && (limit > 0 ==> total <= limit)
  }

  /** Every accepted item is in exactly one place: its number is unique among the accepted,
      and the accepted are the sent, the dropped, the ones in flight and the queued. */
  ghost predicate Conserved(accepted: seq<Item>, sent: seq<Item>, dropped: seq<Item>, pending: seq<Item>, lastSeq: nat) {
    && Increasing(accepted) && Below(accepted, lastSeq)
    && multiset(accepted) == multiset(sent) + multiset(dropped) + multiset(pending)
  }

  lemma AppendAccounted(limit: int, inFlight: seq<Item>, backlog: seq<Item>, total: int, lastSeq: nat, x: Item)
    requires Accounted(limit, inFlight, backlog, total, lastSeq)
    requires Fits(limit, total, x.size) && x.seqNo == lastSeq + 1
    ensures Accounted(limit, inFlight, backlog + [x], total + x.size, lastSeq + 1)
  {
    assert inFlight + (backlog + [x]) == (inFlight + backlog) + [x];
    BytesSnoc(inFlight + backlog, x);
  }

  lemma AppendConserved(accepted: seq<Item>, sent: seq<Item>, dropped: seq<Item>, inFlight: seq<Item>,
                        backlog: seq<Item>, lastSeq: nat, x: Item)
    requires Conserved(accepted, sent, dropped, inFlight + backlog, lastSeq) && x.seqNo == lastSeq + 1
    ensures Conserved(accepted + [x], sent, dropped, inFlight + (backlog + [x]), lastSeq + 1)
  {
  }

  /** A trim takes the listed items out of the queue and into the dropped ones. */
  lemma TrimKeeps(limit: int, inFlight: seq<Item>, backlog: seq<Item>, total: int, lastSeq: nat, seqs: set<nat>)
    requires Accounted(limit, inFlight, backlog, total, lastSeq)
    ensures Accounted(limit, inFlight, Without(backlog, seqs), total - Bytes(Among(backlog, seqs)), lastSeq)
  {
    var rest := Without(backlog, seqs);
    IncreasingParts(inFlight, backlog);
    WithoutKeepsOrder(backlog, seqs);
    IncreasingJoin(inFlight, rest);
    WithoutBytes(backlog, seqs);
    BytesAppend(inFlight, backlog);
    BytesAppend(inFlight, rest);
  }

  lemma TrimConserved(accepted: seq<Item>, sent: seq<Item>, dropped: seq<Item>, inFlight: seq<Item>,
                      backlog: seq<Item>, lastSeq: nat, seqs: set<nat>)
    requires Conserved(accepted, sent, dropped, inFlight + backlog, lastSeq)
    ensures Conserved(accepted, sent, dropped + Among(backlog, seqs), inFlight + Without(backlog, seqs), lastSeq)
  {
    WithoutSplits(backlog, seqs);
  }

  /** A finished batch takes its bytes along. */
  lemma FinishAccounted(limit: int, inFlight: seq<Item>, backlog: seq<Item>, total: int, lastSeq: nat)
    requires Accounted(limit, inFlight, backlog, total, lastSeq)
    ensures Accounted(limit, [], backlog, total - Bytes(inFlight), lastSeq)
  {
    BytesAppend(inFlight, backlog);
    IncreasingParts(inFlight, backlog);
    assert [] + backlog == backlog;
    assert forall x | x in backlog :: x in inFlight + backlog;
  }

  lemma FinishConserved(accepted: seq<Item>, sent: seq<Item>, dropped: seq<Item>, inFlight: seq<Item>,
                        backlog: seq<Item>, lastSeq: nat)
    requires Conserved(accepted, sent, dropped, inFlight + backlog, lastSeq)
    ensures Conserved(accepted, sent + inFlight, dropped, [] + backlog, lastSeq)
    ensures Conserved(accepted, sent, dropped + inFlight, [] + backlog, lastSeq)
  {
  }

  /** One pass keeps the unlisted items and charges off the others. */
  method SplitQueue(items: seq<Item>, seqs: set<nat>, total: int) returns (kept: seq<Item>, size: int, dropped: nat)
    ensures kept == Without(items, seqs)
    ensures size == total - Bytes(Among(items, seqs)) && dropped == |Among(items, seqs)|
  {
    kept, size, dropped := [], total, 0;
    for i := 0 to |items|
      invariant kept == Without(items[..i], seqs)
      invariant size == total - Bytes(Among(items[..i], seqs))
      invariant dropped == |Among(items[..i], seqs)|
    {
      assert items[..i + 1][..i] == items[..i];
      if items[i].seqNo in seqs {
        BytesSnoc(Among(items[..i], seqs), items[i]);
        size := size - items[i].size;
        dropped := dropped + 1;
      } else {
        kept := kept + [items[i]];
      }
    }
    assert items[..|items|] == items;
  }

  class Forwarder {
    const limit: int
    const maxRetries: nat
    const charge: Charge

    var backlog: seq<Item>
    var inFlight: seq<Item>
    var totalSize: int
    var lastSeq: nat
    var attempts: nat
    var adaptive: nat
    var sent: nat
    var dropped: nat
    var retries: nat

    /** Every item that ever entered the queue, and where the departed ones went. */
    ghost var accepted: seq<Item>
    ghost var sentItems: seq<Item>
    ghost var droppedItems: seq<Item>
    /** Offers turned away before they entered the queue. */
    ghost var refused: nat

    ghost predicate Valid()
      reads this
    {
      && Accounted(limit, inFlight, backlog, totalSize, lastSeq)
      && Conserved(accepted, sentItems, droppedItems, inFlight + backlog, lastSeq)
      && sent == |sentItems| && dropped == |droppedItems| + refused
      && (maxRetries > 0 ==> attempts <= maxRetries)
      && Charged(accepted, charge)
    }

    /** Every item in memory is charged what its event costs. */
    lemma PendingCharged()
      requires Valid()
      ensures Charged(inFlight + backlog, charge)
    {
      InMemoryAccepted(accepted, sentItems, droppedItems, inFlight + backlog, lastSeq);
    }

    ghost function Held(): Queues
      reads this
    {
      Queues(inFlight, backlog)
    }

    /** What is still to be delivered, as the worker sees it. */
    ghost function Pending(): Worker
      reads this
    {
      Worker(inFlight + backlog, attempts, adaptive)
    }

    constructor (limit: int, maxRetries: nat, charge: Charge)
      ensures Valid() && backlog == [] && inFlight == [] && accepted == [] && totalSize == 0
      ensures this.limit == limit && this.maxRetries == maxRetries && this.charge == charge
    {
      this.limit, this.maxRetries, this.charge := limit, maxRetries, charge;
      backlog, inFlight, totalSize, lastSeq := [], [], 0, 0;
      attempts, adaptive, sent, dropped, retries := 0, MAX_BATCH, 0, 0, 0;
      accepted, sentItems, droppedItems, refused := [], [], [], 0;
    }

    /** An event enters at the back unless the queue is busy, closed or full. */
    method EnqueueEvent(event: nat, now: int, busy: bool) returns (admitted: bool)
      requires Valid()
      modifies `backlog, `totalSize, `lastSeq, `dropped, `accepted, `refused
      ensures Valid()
      ensures admitted <==> !busy && (limit <= 0 || old(totalSize) + charge(event) <= limit)
      ensures var x := Item(event, charge(event), now, lastSeq);
              admitted ==>
                && backlog == old(backlog) + [x] && Held() == Moved(old(Held()), Enqueue(x))
                && accepted == old(accepted) + [x]
                && totalSize == old(totalSize) + x.size && dropped == old(dropped)
      ensures !admitted ==>
                && backlog == old(backlog) && accepted == old(accepted) && totalSize == old(totalSize)
                && dropped == old(dropped) + 1
    {
      hide Accounted, Conserved;
      if busy {
        dropped, refused := dropped + 1, refused + 1;
        return false;
      }
      if limit > 0 && totalSize + charge(event) > limit {
        SkipNumber();
        dropped, refused := dropped + 1, refused + 1;
        return false;
      }
      Append(event, now);
      return true;
    }

    /** A turned-away event has used up its number. */
    method SkipNumber()
      requires Valid()
      modifies `lastSeq
      ensures Valid()
    {
      lastSeq := lastSeq + 1;
    }

    method Append(event: nat, queuedAt: int)
      requires Valid() && Fits(limit, totalSize, charge(event))
      modifies `backlog, `totalSize, `lastSeq, `accepted
      ensures Valid() && lastSeq == old(lastSeq) + 1 && totalSize == old(totalSize) + charge(event)
      ensures backlog == old(backlog) + [Item(event, charge(event), queuedAt, lastSeq)]
      ensures accepted == old(accepted) + [Item(event, charge(event), queuedAt, lastSeq)]
    {
      hide Accounted, Conserved;
      var x := Item(event, charge(event), queuedAt, lastSeq + 1);
      AppendAccounted(limit, inFlight, backlog, totalSize, lastSeq, x);
      AppendConserved(accepted, sentItems, droppedItems, inFlight, backlog, lastSeq, x);
      lastSeq := lastSeq + 1;
      backlog := backlog + [x];
      accepted := accepted + [x];
      totalSize := totalSize + x.size;
    }

    /** Restores persisted events in order; the ones that do not fit are counted as dropped. */
    method LoadBacklog(saved: seq<Saved>, now: int)
      requires Valid() && inFlight == [] && backlog == []
      modifies `backlog, `totalSize, `lastSeq, `dropped, `accepted, `refused
      ensures Valid() && Events(backlog) == Restored(saved, charge, limit, old(totalSize), now)
      ensures dropped == old(dropped) + |saved| - |backlog|
    {
      hide Accounted, Conserved, Charged;
      for i := 0 to |saved|
        invariant Valid() && inFlight == []
        invariant Events(backlog) == Restored(saved[..i], charge, limit, old(totalSize), now)
        invariant totalSize == RestoredTotal(saved[..i], charge, limit, old(totalSize))
        invariant dropped == old(dropped) + i - |backlog|
      {
        assert saved[..i + 1][..i] == saved[..i];
        var event, at := saved[i].event, RestoredAt(saved[i], now);
        if Fits(limit, totalSize, charge(event)) {
          EventsSnoc(backlog, Item(event, charge(event), at, lastSeq + 1));
          Append(event, at);
        } else {
          SkipNumber();
          dropped, refused := dropped + 1, refused + 1;
        }
      }
      assert saved[..|saved|] == saved;
    }

    /** The worker moves the oldest events out of the queue to send them. */
    method TakeBatch()
      requires Valid() && inFlight == [] && backlog != []
      modifies `backlog, `inFlight
      ensures Valid() && Pending() == old(Pending())
      ensures |inFlight| == BatchSize(|old(backlog)|, adaptive) && inFlight + backlog == old(backlog)
      ensures Held() == Moved(old(Held()), Take(BatchSize(|old(backlog)|, adaptive)))
    {
      hide Accounted, Conserved;
      var n := BatchSize(|backlog|, adaptive);
      assert backlog[..n] + backlog[n..] == backlog == [] + backlog;
      TakeAccounted(limit, backlog, totalSize, lastSeq, n);
      inFlight, backlog := backlog[..n], backlog[n..];
    }

    /** The outcome of a send: the batch leaves for good, or goes back to the front. */
    method FinishBatch(o: Outcome)
      requires Valid() && inFlight != []
      modifies `backlog, `inFlight, `totalSize, `attempts, `adaptive, `sent, `dropped, `retries, `sentItems, `droppedItems
      ensures Valid() && inFlight == []
      ensures o.Delivered? ==>
                && backlog == old(backlog) && totalSize == old(totalSize) - Bytes(old(inFlight)) && attempts == 0
                && sentItems == old(sentItems + inFlight) && droppedItems == old(droppedItems)
                && adaptive == if |old(inFlight)| + 25 > 100 then 100 else |old(inFlight)| + 25
      ensures o.Permanent? || (o.Retryable? && maxRetries > 0 && old(attempts) >= maxRetries) ==>
                && backlog == old(backlog) && totalSize == old(totalSize) - Bytes(old(inFlight)) && attempts == 0
                && sentItems == old(sentItems) && droppedItems == old(droppedItems + inFlight)
                && adaptive == old(adaptive)
      ensures o.Retryable? && (maxRetries == 0 || old(attempts) < maxRetries) ==>
                && backlog == old(inFlight + backlog) && totalSize == old(totalSize) && attempts == old(attempts) + 1
                && sentItems == old(sentItems) && droppedItems == old(droppedItems)
                && adaptive == if !o.tooLarge then old(adaptive) else if |old(inFlight)| < 20 then 10 else |old(inFlight)| / 2
      ensures Held() == Moved(old(Held()), if o.Retryable? && (maxRetries == 0 || old(attempts) < maxRetries) then Requeue else Finish)
    {
      hide Accounted, Conserved;
      var n := |inFlight|;
      if o.Delivered? {
        FinishInFlight(true);
        attempts := 0;
        adaptive := Min(MAX_BATCH, n + 25);
      } else if o.Permanent? || (maxRetries > 0 && attempts >= maxRetries) {
        FinishInFlight(false);
        attempts := 0;
      } else {
        RequeueBatch();
        if o.tooLarge {
          adaptive := Max(MIN_BATCH, n / 2);
        }
        attempts := attempts + 1;
        retries := retries + 1;
      }
    }

    method FinishInFlight(delivered: bool)
      requires Valid()
      modifies `inFlight, `totalSize, `sent, `dropped, `sentItems, `droppedItems
      ensures Valid() && Held() == Moved(old(Held()), Finish) && totalSize == old(totalSize) - Bytes(old(inFlight))
      ensures delivered ==> sentItems == old(sentItems + inFlight) && droppedItems == old(droppedItems)
      ensures !delivered ==> droppedItems == old(droppedItems + inFlight) && sentItems == old(sentItems)
    {
      hide Accounted, Conserved, Bytes;
      FinishAccounted(limit, inFlight, backlog, totalSize, lastSeq);
      FinishConserved(accepted, sentItems, droppedItems, inFlight, backlog, lastSeq);
      assert [] + backlog == backlog;
      totalSize := totalSize - Bytes(inFlight);
      if delivered {
        sent, sentItems := sent + |inFlight|, sentItems + inFlight;
      } else {
        dropped, droppedItems := dropped + |inFlight|, droppedItems + inFlight;
      }
      inFlight := [];
    }

    /** The failed batch goes back to the front; its bytes stayed counted. */
    method RequeueBatch()
      requires Valid()
      modifies `backlog, `inFlight
      ensures Valid() && Held() == Moved(old(Held()), Requeue)
    {
      hide Accounted, Conserved;
      assert [] + (inFlight + backlog) == inFlight + backlog;
      RequeueAccounted(limit, inFlight, backlog, totalSize, lastSeq);
      inFlight, backlog := [], inFlight + backlog;
    }

    /** Memory follows a bounded file: the listed items leave the queue, but not the batch
        that is being sent. */
    method DropPersistTrimmed(seqs: set<nat>)
      requires Valid()
      modifies `backlog, `totalSize, `dropped, `droppedItems
      ensures Valid() && backlog == Without(old(backlog), seqs)
      ensures droppedItems == old(droppedItems) + Among(old(backlog), seqs)
      ensures totalSize == old(totalSize) - Bytes(Among(old(backlog), seqs))
    {
      hide Accounted, Conserved, Without, Among, Bytes;
      TrimKeeps(limit, inFlight, backlog, totalSize, lastSeq, seqs);
      TrimConserved(accepted, sentItems, droppedItems, inFlight, backlog, lastSeq, seqs);
      droppedItems := droppedItems + Among(backlog, seqs);
      var kept, size, count := SplitQueue(backlog, seqs, totalSize);
      backlog, totalSize, dropped := kept, size, dropped + count;
    }

    /** One turn of the worker is one attempt on everything that is pending. */
    method SendOnce(o: Outcome)
      requires Valid() && inFlight == [] && backlog != []
      modifies this
      ensures Valid() && inFlight == [] && Pending() == Attempt(old(Pending()), maxRetries, o)
    {
      hide Accounted, Conserved;
      assert [] + backlog == backlog;
      ghost var q := backlog;
      TakeBatch();
      assert q == inFlight + backlog && q[|inFlight|..] == backlog;
      FinishBatch(o);
      assert [] + backlog == backlog;
    }

    /** With no new events and a retry limit, the worker empties the queue within
        (queue length) * (maxRetries + 1) sends, whatever the controller answers. */
    method DeliverAll(answers: nat -> Outcome) returns (sends: nat)
      requires Valid() && inFlight == [] && maxRetries > 0 && attempts == 0
      modifies this
      ensures Valid() && backlog == [] && inFlight == []
      ensures sends <= |old(backlog)| * (maxRetries + 1)
    {
      hide Accounted, Conserved;
      sends := 0;
      ghost var start := Fuel(Pending(), maxRetries);
      assert |inFlight + backlog| == |backlog|;
      while backlog != []
        invariant Valid() && inFlight == []
        invariant Pending().attempts <= maxRetries
        invariant 0 <= sends <= start - Fuel(Pending(), maxRetries) <= start
        decreases Fuel(Pending(), maxRetries)
      {
        AttemptBurnsFuel(Pending(), maxRetries, answers(sends));
        SendOnce(answers(sends));
        sends := sends + 1;
      }
    }
  }

  lemma TakeAccounted(limit: int, backlog: seq<Item>, total: int, lastSeq: nat, n: nat)
    requires Accounted(limit, [], backlog, total, lastSeq) && n <= |backlog|
    ensures Accounted(limit, backlog[..n], backlog[n..], total, lastSeq)
  {
    assert [] + backlog == backlog == backlog[..n] + backlog[n..];
  }

  lemma RequeueAccounted(limit: int, inFlight: seq<Item>, backlog: seq<Item>, total: int, lastSeq: nat)
    requires Accounted(limit, inFlight, backlog, total, lastSeq)
    ensures Accounted(limit, [], inFlight + backlog, total, lastSeq)
  {
    assert [] + (inFlight + backlog) == inFlight + backlog;
  }

  // ----- restoring -----

  lemma InMemoryAccepted(accepted: seq<Item>, sent: seq<Item>, dropped: seq<Item>, pending: seq<Item>, lastSeq: nat)
    requires Conserved(accepted, sent, dropped, pending, lastSeq)
    ensures forall x | x in pending :: x in accepted
  {
    forall x | x in pending ensures x in multiset(accepted) {
      assert x in multiset(pending);
    }
  }

  function Persisted(x: Item): Saved {
    Saved(x.event, Some(x.queuedAt))
  }

  function Events(items: seq<Item>): seq<Saved> {
    seq(|items|, i requires 0 <= i < |items| => Persisted(items[i]))
  }

  lemma EventsSnoc(items: seq<Item>, x: Item)
    ensures Events(items + [x]) == Events(items) + [Persisted(x)]
  {
  }

  /** Bytes charged after restoring, and the events that found room, in file order. */
  function RestoredTotal(saved: seq<Saved>, charge: Charge, limit: int, total: int): int {
    if saved == [] then total
    else
      var before, size := RestoredTotal(saved[..|saved| - 1], charge, limit, total), charge(saved[|saved| - 1].event);
      if Fits(limit, before, size) then before + size else before
  }

  function Restored(saved: seq<Saved>, charge: Charge, limit: int, total: int, now: int): seq<Saved> {
    if saved == [] then []
    else
      var rest := Restored(saved[..|saved| - 1], charge, limit, total, now);
      var last := saved[|saved| - 1];
      if Fits(limit, RestoredTotal(saved[..|saved| - 1], charge, limit, total), charge(last.event))
      then rest + [Refresh(last, now)] else rest
  }

  function SavedBytes(saved: seq<Saved>, charge: Charge): nat {
    if saved == [] then 0 else SavedBytes(saved[..|saved| - 1], charge) + charge(saved[|saved| - 1].event)
  }

  function Refresh(saved: Saved, now: int): Saved {
    saved.(queuedAt := Some(RestoredAt(saved, now)))
  }

  /** The saved events, none of them without a time or from the future. */
  function Refreshed(saved: seq<Saved>, now: int): seq<Saved> {
    seq(|saved|, i requires 0 <= i < |saved| => Refresh(saved[i], now))
  }

  /** The bytes charged after restoring are those of the restored events. */
  lemma {:induction false} RestoredBytes(saved: seq<Saved>, charge: Charge, limit: int, total: int, now: int)
    ensures RestoredTotal(saved, charge, limit, total) == total + SavedBytes(Restored(saved, charge, limit, total, now), charge)
  {
    if saved != [] {
      var rest := Restored(saved[..|saved| - 1], charge, limit, total, now);
      RestoredBytes(saved[..|saved| - 1], charge, limit, total, now);
      SavedSnoc(rest, Refresh(saved[|saved| - 1], now), charge);
    }
  }

  lemma SavedSnoc(saved: seq<Saved>, x: Saved, charge: Charge)
    ensures SavedBytes(saved + [x], charge) == SavedBytes(saved, charge) + charge(x.event)
  {
  }

  /** Positions in increasing order. */
  predicate Ascending(at: seq<nat>, bound: nat) {
    && (forall j | 0 <= j < |at| :: at[j] < bound)
    && forall i, j | 0 <= i < j < |at| :: at[i] < at[j]
  }

  /** The i-th event fits beside those restored before it. */
  predicate FitsBeside(saved: seq<Saved>, charge: Charge, limit: int, total: int, i: nat) {
    i < |saved| && (limit <= 0 || RestoredTotal(saved[..i], charge, limit, total) + charge(saved[i].event) <= limit)
  }

  /** The restored events are those at these positions, with their times if these are plausible. */
  ghost predicate PickedAt(saved: seq<Saved>, restored: seq<Saved>, now: int, at: seq<nat>) {
    && Ascending(at, |saved|) && |restored| == |at|
    && forall j | 0 <= j < |at| ::
         restored[j].event == saved[at[j]].event && restored[j].queuedAt == Some(RestoredAt(saved[at[j]], now))
  }

  /** An event is restored exactly if it fits beside those restored before it; one that does not
      fit never keeps a later one out. */
  lemma {:induction false} RestoredGreedily(saved: seq<Saved>, charge: Charge, limit: int, total: int, now: int)
    returns (at: seq<nat>)
    ensures PickedAt(saved, Restored(saved, charge, limit, total, now), now, at)
    ensures forall i: nat :: i in at <==> FitsBeside(saved, charge, limit, total, i)
  {
    if saved == [] {
      at := [];
    } else {
      hide PickedAt, FitsBeside, Restored;
      var n := |saved| - 1;
      var first, x := saved[..n], saved[n];
      var before := RestoredGreedily(first, charge, limit, total, now);
      assert saved == first + [x];
      RestoredSnoc(first, x, charge, limit, total, now);
      PickedSnoc(first, Restored(first, charge, limit, total, now), x, now, before);
      at := if FitsBeside(saved, charge, limit, total, n) then before + [n] else before;
      LastFits(first, x, charge, limit, total);
      forall i: nat ensures i in at <==> FitsBeside(saved, charge, limit, total, i) {
        FitsSame(first, x, charge, limit, total, i);
      }
    }
  }

  lemma PickedSnoc(saved: seq<Saved>, restored: seq<Saved>, x: Saved, now: int, at: seq<nat>)
    requires PickedAt(saved, restored, now, at)
    ensures PickedAt(saved + [x], restored, now, at)
    ensures PickedAt(saved + [x], restored + [Refresh(x, now)], now, at + [|saved|])
  {
    hide RestoredAt;
  }

  lemma FitsSame(saved: seq<Saved>, x: Saved, charge: Charge, limit: int, total: int, i: nat)
    ensures i != |saved| ==> (FitsBeside(saved + [x], charge, limit, total, i) <==> FitsBeside(saved, charge, limit, total, i))
    ensures i >= |saved| ==> !FitsBeside(saved, charge, limit, total, i)
  {
    if i < |saved| {
      assert (saved + [x])[..i] == saved[..i];
    }
  }

  lemma LastFits(saved: seq<Saved>, x: Saved, charge: Charge, limit: int, total: int)
    ensures FitsBeside(saved + [x], charge, limit, total, |saved|) <==>
            limit <= 0 || RestoredTotal(saved, charge, limit, total) + charge(x.event) <= limit
  {
    assert (saved + [x])[..|saved|] == saved;
  }

  lemma RestoredSnoc(saved: seq<Saved>, x: Saved, charge: Charge, limit: int, total: int, now: int)
    ensures var fits := limit <= 0 || RestoredTotal(saved, charge, limit, total) + charge(x.event) <= limit;
            Restored(saved + [x], charge, limit, total, now)
            == Restored(saved, charge, limit, total, now) + if fits then [Refresh(x, now)] else []
  {
    assert (saved + [x])[..|saved|] == saved;
  }

  /** Events whose charged sizes fit the limit together are all restored, in order. */
  lemma {:induction false} RestoredAll(saved: seq<Saved>, charge: Charge, limit: int, now: int)
    requires limit <= 0 || SavedBytes(saved, charge) <= limit
    ensures RestoredTotal(saved, charge, limit, 0) == SavedBytes(saved, charge)
    ensures Restored(saved, charge, limit, 0, now) == Refreshed(saved, now)
  {
    if saved != [] {
      RestoredAll(saved[..|saved| - 1], charge, limit, now);
    }
  }
}
