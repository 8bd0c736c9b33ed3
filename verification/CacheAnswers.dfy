/** Whose message a query gets, over every run of the cache protocol. */
module CacheAnswers {
  import opened CacheProtocol
  import opened CacheRuns

  predicate HasFlight(q: Request) {
    !q.Missed? && !q.Rejected?
  }

  /** A flight number stands for one key: the key its leader and its followers asked for. */
  ghost predicate FlightKeys(f: Flights) {
    && (forall k | k in f.table :: f.table[k] < f.next)
    && (forall r | r in f.requests && HasFlight(f.requests[r]) :: f.requests[r].flight < f.next)
    && (forall r, k | r in f.requests && HasFlight(f.requests[r]) && k in f.table && f.table[k] == f.requests[r].flight ::
          f.requests[r].key == k)
    && (forall r, r' | r in f.requests && r' in f.requests && HasFlight(f.requests[r]) && HasFlight(f.requests[r'])
                       && f.requests[r].flight == f.requests[r'].flight ::
          f.requests[r].key == f.requests[r'].key)
    && (forall k, k' | k in f.table && k' in f.table && f.table[k] == f.table[k'] :: k == k')
  }

  /** A query keeps its flight and key, has none, or joins the flight in the table. */
  lemma SetRequest(f: Flights, r: Id, q: Request)
    requires FlightKeys(f)
    requires HasFlight(q) ==>
               || (q.key in f.table && f.table[q.key] == q.flight)
               || (r in f.requests && HasFlight(f.requests[r]) && f.requests[r].key == q.key && f.requests[r].flight == q.flight)
    ensures FlightKeys(f.(requests := f.requests[r := q]))
  {
  }

  lemma BeginKeys(f: Flights, r: Id, key: Key, fetch: Fetch)
    requires FlightKeys(f)
    ensures FlightKeys(BeginFlight(f, r, key, fetch))
  {
    if key in f.table {
      SetRequest(f, r, Waiting(key, f.table[key]));
    } else if |f.table| >= MAX_FLIGHTS {
      SetRequest(f, r, Rejected(key));
    } else {
      var g := f.(table := f.table[key := f.next], next := f.next + 1);
      assert FlightKeys(g);
      SetRequest(g, r, Leading(key, fetch, f.next));
    }
  }

  lemma FlightKeysStep(s: State, step: Step)
    requires FlightKeys(s.flights)
    ensures FlightKeys(Apply(s, step).flights)
  {
    hide FlightKeys, BeginFlight;
    if Enabled(s, step) {
      var f := s.flights;
      match step
      case Miss(r, key) => SetRequest(f, r, Missed(key, NewFetch(s.shared)));
      case Begin(r) => BeginKeys(f, r, f.requests[r].key, f.requests[r].fetch);
      case PublishMiss(r, message, _) => SetRequest(f, r, Completing(f.requests[r].key, f.requests[r].flight, message));
      case Complete(r) => CompleteKeys(f, r);
      case Wake(r) => SetRequest(f, r, Done(f.requests[r].key, f.requests[r].flight, f.results[f.requests[r].flight]));
      case _ =>
    }
  }

  lemma CompleteKeys(f: Flights, r: Id)
    requires FlightKeys(f) && r in f.requests && f.requests[r].Completing?
    ensures var q := f.requests[r]; FlightKeys(CompleteFlight(f, r, q.key, q.flight, q.message))
  {
    var q := f.requests[r];
    SetRequest(f, r, Done(q.key, q.flight, q.message));
  }

  lemma {:induction false} RunFlightKeys(steps: seq<Step>)
    ensures FlightKeys(Run(steps).flights)
  {
    if steps != [] {
      hide Run, Apply, Inv, FlightKeys;
      RunSnoc(steps);
      RunFlightKeys(steps[..|steps| - 1]);
      FlightKeysStep(Run(steps[..|steps| - 1]), steps[|steps| - 1]);
    }
  }

  // ----- who asked, and who published -----

  ghost predicate AskedAt(steps: seq<Step>, b: nat, r: Id, k: Key) {
    Taken(steps, b) && steps[b] == Miss(r, k)
  }

  ghost predicate Asked(steps: seq<Step>, r: Id, k: Key) {
    exists b: nat :: AskedAt(steps, b, r, k)
  }

  ghost predicate PublishedAt(steps: seq<Step>, b: nat, m: nat, l: Id, k: Key, message: Message) {
    b < m && AskedAt(steps, b, l, k) && Taken(steps, m) &&
    steps[m].PublishMiss? && steps[m].r == l && steps[m].message == message
  }

  /** Query l asked for the key, and later published the message as the outcome of its fetch. */
  ghost predicate Published(steps: seq<Step>, l: Id, k: Key, message: Message) {
    exists b: nat, m: nat :: PublishedAt(steps, b, m, l, k, message)
  }

  /** The flight's leader is done and published this message for the key it asked for. */
  ghost predicate LedBy(steps: seq<Step>, f: Flights, l: Id, flight: Id, message: Message) {
    l in f.requests && f.requests[l].Done? && f.requests[l].flight == flight &&
    Published(steps, l, f.requests[l].key, message)
  }

  ghost predicate ResultOrigin(steps: seq<Step>, f: Flights, flight: Id, message: Message) {
    exists l :: LedBy(steps, f, l, flight, message)
  }

  ghost predicate AnswerOrigin(steps: seq<Step>, f: Flights, r: Id)
    requires r in f.requests
  {
    var q := f.requests[r];
    && Asked(steps, r, q.key)
    && (q.Completing? ==> Published(steps, r, q.key, q.message))
    && (q.Done? ==> ResultOrigin(steps, f, q.flight, q.message))
  }

  ghost predicate Answers(steps: seq<Step>, f: Flights) {
    && (forall r | r in f.requests :: AnswerOrigin(steps, f, r))
    && (forall flight | flight in f.results :: ResultOrigin(steps, f, flight, f.results[flight]))
  }

  // What one step can make of a query and of the finished flights.

  lemma RequestChange(s: State, step: Step, r: Id)
    requires r in Apply(s, step).flights.requests
    ensures var req, q' := s.flights.requests, Apply(s, step).flights.requests[r];
            || (r in req && q' == req[r])
            || (Enabled(s, step) && step == Miss(r, q'.key) && q'.Missed?)
            || (r in req && q'.key == req[r].key && !q'.Completing? && !q'.Done?)
            || (Enabled(s, step) && step.PublishMiss? && step.r == r && r in req && q'.key == req[r].key
                && q'.Completing? && q'.message == step.message)
            || (step == Complete(r) && r in req && req[r].Completing?
                && q' == Done(req[r].key, req[r].flight, req[r].message))
            || (step == Wake(r) && r in req && req[r].Waiting? && req[r].flight in s.flights.results
                && q' == Done(req[r].key, req[r].flight, s.flights.results[req[r].flight]))
  {
  }

  lemma ResultChange(s: State, step: Step, flight: Id)
    requires flight in Apply(s, step).flights.results
    ensures var f, f' := s.flights, Apply(s, step).flights;
            || (flight in f.results && f'.results[flight] == f.results[flight])
            || (step.Complete? && step.r in f.requests && f.requests[step.r].Completing?
                && f.requests[step.r].flight == flight && f'.results[flight] == f.requests[step.r].message
                && step.r in f'.requests && f'.requests[step.r] == Done(f.requests[step.r].key, flight, f'.results[flight]))
  {
  }

  lemma DoneStays(s: State, step: Step, l: Id)
    requires l in s.flights.requests && s.flights.requests[l].Done?
    ensures l in Apply(s, step).flights.requests && Apply(s, step).flights.requests[l] == s.flights.requests[l]
  {
  }

  // The origins survive a step.

  lemma AskedStays(steps: seq<Step>, step: Step, r: Id, k: Key)
    requires Asked(steps, r, k)
    ensures Asked(steps + [step], r, k)
  {
    hide Run, Enabled, Taken;
    var b: nat :| AskedAt(steps, b, r, k);
    TakenStays(steps, step, b);
    assert AskedAt(steps + [step], b, r, k);
  }

  lemma PublishedStays(steps: seq<Step>, step: Step, l: Id, k: Key, message: Message)
    requires Published(steps, l, k, message)
    ensures Published(steps + [step], l, k, message)
  {
    hide Run, Enabled, Taken;
    var b: nat, m: nat :| PublishedAt(steps, b, m, l, k, message);
    TakenStays(steps, step, b);
    TakenStays(steps, step, m);
    assert PublishedAt(steps + [step], b, m, l, k, message);
  }

  lemma ResultStays(steps: seq<Step>, s: State, step: Step, flight: Id, message: Message)
    requires ResultOrigin(steps, s.flights, flight, message)
    ensures ResultOrigin(steps + [step], Apply(s, step).flights, flight, message)
  {
    hide Apply, Published;
    var l :| LedBy(steps, s.flights, l, flight, message);
    DoneStays(s, step, l);
    PublishedStays(steps, step, l, s.flights.requests[l].key, message);
    assert LedBy(steps + [step], Apply(s, step).flights, l, flight, message);
  }

  lemma AsksNow(steps: seq<Step>, r: Id, k: Key)
    requires Enabled(Run(steps), Miss(r, k))
    ensures Asked(steps + [Miss(r, k)], r, k)
  {
    assert (steps + [Miss(r, k)])[..|steps|] == steps;
    assert AskedAt(steps + [Miss(r, k)], |steps|, r, k);
  }

  lemma PublishesNow(steps: seq<Step>, step: Step, k: Key)
    requires step.PublishMiss? && Enabled(Run(steps), step) && Asked(steps, step.r, k)
    ensures Published(steps + [step], step.r, k, step.message)
  {
    hide Enabled, Run, Taken, Inv;
    var b: nat :| AskedAt(steps, b, step.r, k);
    TakenIndex(steps, b);
    TakenStays(steps, step, b);
    TakesNow(steps, step);
    assert PublishedAt(steps + [step], b, |steps|, step.r, k, step.message);
  }

  lemma TakenIndex(steps: seq<Step>, b: nat)
    requires Taken(steps, b)
    ensures b < |steps|
  {
  }

  lemma TakesNow(steps: seq<Step>, step: Step)
    requires Enabled(Run(steps), step)
    ensures Taken(steps + [step], |steps|)
  {
    hide Enabled, Run, Inv;
    var all := steps + [step];
    assert all[..|steps|] == steps && all[|steps|] == step;
  }

  lemma ResultsStep(steps: seq<Step>, step: Step, flight: Id)
    requires Answers(steps, Run(steps).flights) && flight in Apply(Run(steps), step).flights.results
    ensures ResultOrigin(steps + [step], Apply(Run(steps), step).flights, flight,
                         Apply(Run(steps), step).flights.results[flight])
  {
    hide Run, Apply, Enabled, Inv, Published, ResultOrigin;
    var s := Run(steps);
    var f, f' := s.flights, Apply(s, step).flights;
    ResultChange(s, step, flight);
    if flight in f.results && f'.results[flight] == f.results[flight] {
      ResultStays(steps, s, step, flight, f.results[flight]);
    } else {
      CompletesNow(steps, s, step, flight);
    }
  }

  lemma CompletesNow(steps: seq<Step>, s: State, step: Step, flight: Id)
    requires step.Complete? && step.r in s.flights.requests && AnswerOrigin(steps, s.flights, step.r)
    requires s.flights.requests[step.r].Completing? && s.flights.requests[step.r].flight == flight
    requires step.r in Apply(s, step).flights.requests
    requires var q := s.flights.requests[step.r]; Apply(s, step).flights.requests[step.r] == Done(q.key, flight, q.message)
    ensures ResultOrigin(steps + [step], Apply(s, step).flights, flight, s.flights.requests[step.r].message)
  {
    hide Apply, Published;
    var q := s.flights.requests[step.r];
    PublishedStays(steps, step, step.r, q.key, q.message);
    assert LedBy(steps + [step], Apply(s, step).flights, step.r, flight, q.message);
  }

  lemma AnswerStep(steps: seq<Step>, step: Step, r: Id)
    requires Answers(steps, Run(steps).flights) && r in Apply(Run(steps), step).flights.requests
    ensures AnswerOrigin(steps + [step], Apply(Run(steps), step).flights, r)
  {
    hide Run, Apply, Enabled, Inv, Asked, Published, ResultOrigin;
    var s := Run(steps);
    var req, q' := s.flights.requests, Apply(s, step).flights.requests[r];
    RequestChange(s, step, r);
    if r !in req {
      AsksNow(steps, r, q'.key);
    } else {
      var q := req[r];
      assert AnswerOrigin(steps, s.flights, r);
      if q' == q {
        AnswerStays(steps, s, step, r);
      } else if Enabled(s, step) && step == Miss(r, q'.key) && q'.Missed? {
        AsksNow(steps, r, q'.key);
      } else {
        AskedStays(steps, step, r, q.key);
        if q'.Completing? {
          PublishesNow(steps, step, q.key);
        } else if q'.Done? && step == Complete(r) {
          CompletesNow(steps, s, step, q.flight);
        } else if q'.Done? {
          ResultStays(steps, s, step, q.flight, s.flights.results[q.flight]);
        }
      }
    }
  }

  lemma AnswerStays(steps: seq<Step>, s: State, step: Step, r: Id)
    requires r in s.flights.requests && AnswerOrigin(steps, s.flights, r)
    requires r in Apply(s, step).flights.requests && Apply(s, step).flights.requests[r] == s.flights.requests[r]
    ensures AnswerOrigin(steps + [step], Apply(s, step).flights, r)
  {
    hide Apply, Asked, Published, ResultOrigin;
    var q := s.flights.requests[r];
    AskedStays(steps, step, r, q.key);
    if q.Completing? {
      PublishedStays(steps, step, r, q.key, q.message);
    } else if q.Done? {
      ResultStays(steps, s, step, q.flight, q.message);
    }
  }

  lemma AnswersStep(steps: seq<Step>, step: Step)
    requires Answers(steps, Run(steps).flights)
    ensures Answers(steps + [step], Apply(Run(steps), step).flights)
  {
    hide Run, Apply, Inv, AnswerOrigin, ResultOrigin;
    var f' := Apply(Run(steps), step).flights;
    forall r | r in f'.requests ensures AnswerOrigin(steps + [step], f', r) {
      AnswerStep(steps, step, r);
    }
    forall x | x in f'.results ensures ResultOrigin(steps + [step], f', x, f'.results[x]) {
      ResultsStep(steps, step, x);
    }
  }

  lemma EmptyAnswers()
    ensures Answers([], Run([]).flights)
  {
    assert Run([]) == Initial;
  }

  lemma {:induction false} RunAnswers(steps: seq<Step>)
    ensures Answers(steps, Run(steps).flights)
  {
    hide Run, Apply, Inv, Answers;
    if steps == [] {
      EmptyAnswers();
    } else {
      var n := |steps| - 1;
      RunAnswers(steps[..n]);
      RunSnoc(steps);
      assert steps == steps[..n] + [steps[n]];
      AnswersStep(steps[..n], steps[n]);
    }
  }

  /** In every run: a query that is done asked for its key, and has the message that the leader of
      its own flight, which asked for the same key, published as the outcome of its fetch. */
  lemma EveryAnswer(steps: seq<Step>, r: Id)
    requires r in Run(steps).flights.requests && Run(steps).flights.requests[r].Done?
    ensures var req := Run(steps).flights.requests;
            var q := req[r];
            && Asked(steps, r, q.key)
            && exists l :: l in req && req[l].Done? && req[l].flight == q.flight && Published(steps, l, q.key, q.message)
  {
    hide Run, Inv, Asked, Published;
    var f := Run(steps).flights;
    RunAnswers(steps);
    RunFlightKeys(steps);
    assert AnswerOrigin(steps, f, r);
    var l :| LedBy(steps, f, l, f.requests[r].flight, f.requests[r].message);
    assert f.requests[l].key == f.requests[r].key;
  }
}
