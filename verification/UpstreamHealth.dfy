/** Health hysteresis of the upstream servers.  A ghost history of probe rounds says what the
    consecutive-success and consecutive-failure counters stand for. */
module UpstreamHealth {

  const FAILURE_THRESHOLD: nat := 3
  const SUCCESS_THRESHOLD: nat := 2

  datatype Counter = Counter(failures: nat, successes: nat)

  /** One probe round: the servers judged and those that answered. */
  datatype Round = Round(servers: set<string>, answered: set<string>)

  function Bumped(c: Counter, ok: bool): Counter {
    if ok then Counter(0, c.successes + 1) else Counter(c.failures + 1, 0)
  }

  /** The rounds in a row, up to the last one, in which a server failed or answered. */
  function Trail(history: seq<Round>, server: string): Counter {
    if history == [] then Counter(0, 0)
    else
      var last := history[|history| - 1];
      if server !in last.servers then Counter(0, 0)
      else Bumped(Trail(history[..|history| - 1], server), server in last.answered)
  }

  predicate Distinct(servers: seq<string>) {
    forall i, j | 0 <= i < j < |servers| :: servers[i] != servers[j]
  }

  function Lookup(states: map<string, Counter>, server: string): Counter {
    if server in states then states[server] else Counter(0, 0)
  }

  ghost predicate Counted(states: map<string, Counter>, history: seq<Round>) {
    forall s: string :: Lookup(states, s) == Trail(history, s)
  }

  /** Whether a server belongs to the healthy set after a round. */
  predicate Qualifies(wasHealthy: bool, after: Counter, ok: bool) {
    if ok then wasHealthy || after.successes >= SUCCESS_THRESHOLD
    else wasHealthy && after.failures < FAILURE_THRESHOLD
  }

  function Keep(servers: seq<string>, p: string -> bool): seq<string> {
    if servers == [] then []
    else
      var last := servers[|servers| - 1];
      Keep(servers[..|servers| - 1], p) + if p(last) then [last] else []
  }

  lemma {:induction false} KeepMembers(servers: seq<string>, p: string -> bool)
    ensures forall s :: s in Keep(servers, p) <==> s in servers && p(s)
  {
    if servers != [] {
      KeepMembers(servers[..|servers| - 1], p);
    }
  }

  lemma {:induction false} KeepAll(servers: seq<string>, p: string -> bool)
    requires forall s | s in servers :: p(s)
    ensures Keep(servers, p) == servers
  {
    if servers != [] {
      var n := |servers| - 1;
      assert servers[n] in servers;
      forall s | s in servers[..n] ensures s in servers {
      }
      KeepAll(servers[..n], p);
    }
  }

  /** Membership in the healthy set after one more round. */
  function Judge(healthy: seq<string>, history: seq<Round>): string -> bool
    requires history != []
  {
    s => Qualifies(s in healthy, Trail(history, s), s in history[|history| - 1].answered)
  }

  /** The healthy set after a round: the servers that qualify, or the old set if none does. */
  ghost predicate Judged(upstreams: seq<string>, before: seq<string>, history: seq<Round>, after: seq<string>)
    requires history != []
  {
    var qualified := Keep(upstreams, Judge(before, history));
    after == if qualified == [] then before else qualified
  }

  ghost predicate FailedRounds(history: seq<Round>, server: string, n: nat) {
    n <= |history| && forall i | |history| - n <= i < |history| ::
      server in history[i].servers && server !in history[i].answered
  }

  ghost predicate AnsweredRounds(history: seq<Round>, server: string, n: nat) {
    n <= |history| && forall i | |history| - n <= i < |history| ::
      server in history[i].servers && server in history[i].answered
  }

  /** What the counters mean: a server failed, or answered, in the last n rounds if and only if
      its counter says at least n. */
  lemma {:induction false} TrailRounds(history: seq<Round>, server: string, n: nat)
    ensures FailedRounds(history, server, n) <==> n <= Trail(history, server).failures
    ensures AnsweredRounds(history, server, n) <==> n <= Trail(history, server).successes
  {
    if history != [] && n > 0 {
      var k := |history| - 1;
      TrailRounds(history[..k], server, n - 1);
      assert FailedRounds(history, server, n) <==>
             FailedRounds(history[..k], server, n - 1) && server in history[k].servers && server !in history[k].answered;
      assert AnsweredRounds(history, server, n) <==>
             AnsweredRounds(history[..k], server, n - 1) && server in history[k].servers && server in history[k].answered;
    }
  }

  /** While some server qualifies, a healthy one leaves exactly after three failed rounds in a row. */
  lemma LeavesIffFailures(upstreams: seq<string>, before: seq<string>, history: seq<Round>, after: seq<string>, server: string)
    requires history != [] && Judged(upstreams, before, history, after)
    requires forall s | s in upstreams :: s in history[|history| - 1].servers
    requires Keep(upstreams, Judge(before, history)) != [] && server in upstreams && server in before
    ensures server !in after <==> FailedRounds(history, server, FAILURE_THRESHOLD)
  {
    KeepMembers(upstreams, Judge(before, history));
    TrailRounds(history, server, FAILURE_THRESHOLD);
  }

  /** While some server qualifies, an unhealthy one enters exactly after two answered rounds in a row. */
  lemma EntersIffSuccesses(upstreams: seq<string>, before: seq<string>, history: seq<Round>, after: seq<string>, server: string)
    requires history != [] && Judged(upstreams, before, history, after)
    requires forall s | s in upstreams :: s in history[|history| - 1].servers
    requires Keep(upstreams, Judge(before, history)) != [] && server in upstreams && server !in before
    ensures server in after <==> AnsweredRounds(history, server, SUCCESS_THRESHOLD)
  {
    KeepMembers(upstreams, Judge(before, history));
    TrailRounds(history, server, SUCCESS_THRESHOLD);
  }

  /** No server qualifies exactly when every healthy one has failed three rounds in a row and no
      other has answered two; then the healthy set stays. */
  lemma StaysIffNoneQualifies(upstreams: seq<string>, before: seq<string>, history: seq<Round>)
    requires history != [] && forall s | s in upstreams :: s in history[|history| - 1].servers
    ensures Keep(upstreams, Judge(before, history)) == [] <==>
            forall s | s in upstreams ::
              if s in before then FailedRounds(history, s, FAILURE_THRESHOLD) else !AnsweredRounds(history, s, SUCCESS_THRESHOLD)
  {
    var qualified := Keep(upstreams, Judge(before, history));
    KeepMembers(upstreams, Judge(before, history));
    forall s | s in upstreams
      ensures s in qualified <==>
              !(if s in before then FailedRounds(history, s, FAILURE_THRESHOLD) else !AnsweredRounds(history, s, SUCCESS_THRESHOLD))
    {
      TrailRounds(history, s, FAILURE_THRESHOLD);
      TrailRounds(history, s, SUCCESS_THRESHOLD);
    }
    assert qualified != [] ==> qualified[0] in qualified;
  }

  /** A configured server leaves the healthy set only after three failed rounds in a row, and
      only while another server stays. */
  lemma LeavesAfterFailures(upstreams: seq<string>, before: seq<string>, history: seq<Round>, after: seq<string>, server: string)
    requires history != [] && Judged(upstreams, before, history, after)
    requires forall s | s in upstreams :: s in history[|history| - 1].servers
    requires server in upstreams && server in before && server !in after
    ensures FailedRounds(history, server, FAILURE_THRESHOLD)
    ensures exists other :: other in after && other != server
  {
    LeavesIffFailures(upstreams, before, history, after, server);
    assert after[0] in after && after[0] != server;
  }

  /** A server enters only after answering two rounds in a row. */
  lemma EntersAfterSuccesses(upstreams: seq<string>, before: seq<string>, history: seq<Round>, after: seq<string>, server: string)
    requires history != [] && Judged(upstreams, before, history, after)
    requires server !in before && server in after
    ensures AnsweredRounds(history, server, SUCCESS_THRESHOLD)
  {
    KeepMembers(upstreams, Judge(before, history));
    TrailRounds(history, server, SUCCESS_THRESHOLD);
  }

  function In(list: seq<string>): string -> bool {
    s => s in list
  }

  method RetainServers(servers: seq<string>, allowed: seq<string>) returns (retained: seq<string>)
    ensures retained == Keep(servers, In(allowed))
  {
    retained := [];
    for i := 0 to |servers|
      invariant retained == Keep(servers[..i], In(allowed))
    {
      assert servers[..i + 1][..i] == servers[..i];
      if servers[i] in allowed {
        retained := retained + [servers[i]];
      }
    }
    assert servers[..|servers|] == servers;
  }

  class Checker {
    var upstreams: seq<string>
    var healthy: seq<string>
    var states: map<string, Counter>

    /** All completed rounds; whether every list so far was free of duplicates. */
    ghost var history: seq<Round>
    ghost var distinct: bool

    /** The healthy set is a subset of the upstreams, and not empty unless they are. */
    ghost predicate Valid()
      reads this
    {
      && (forall s | s in healthy :: s in upstreams)
      && (upstreams != [] ==> healthy != [])
      && (distinct ==> Distinct(upstreams) && Counted(states, history))
    }

    constructor (servers: seq<string>)
      ensures Valid() && upstreams == healthy == servers && history == [] && distinct == Distinct(servers)
    {
      upstreams, healthy, states := servers, servers, map[];
      history, distinct := [], Distinct(servers);
    }

    /** A reload keeps the healthy servers that are still configured. */
    method UpdateUpstreams(servers: seq<string>)
      requires Valid()
      modifies this
      ensures Valid() && upstreams == servers && history == old(history) && states == old(states)
      ensures distinct == (old(distinct) && Distinct(servers))
      ensures var kept := Keep(old(healthy), In(servers));
              healthy == if kept == [] then servers else kept
    {
      KeepMembers(healthy, In(servers));
      upstreams := servers;
      healthy := RetainServers(healthy, servers);
      if healthy == [] {
        healthy := servers;
      }
      distinct := distinct && Distinct(servers);
    }

    /** One round of probes.  A server without a result counts as failed. */
    method RunChecks(results: map<string, bool>, cancelled: bool)
      requires Valid()
      modifies this
      ensures Valid() && upstreams == old(upstreams) && distinct == old(distinct)
      ensures cancelled ==> healthy == old(healthy) && states == old(states) && history == old(history)
      ensures !cancelled ==>
                && |history| == |old(history)| + 1 && history[..|old(history)|] == old(history)
                && var last := history[|old(history)|];
                   && (forall s :: s in last.servers <==> s in upstreams)
                   && (forall s :: s in last.answered <==> s in upstreams && s in results && results[s])
      ensures !cancelled && distinct ==> Judged(upstreams, old(healthy), history, healthy)
    {
      if cancelled {
        return;
      }
      hide Trail, Keep, Judge, Counted, Pruned;
      ghost var after := history + [RoundOf(upstreams, results)];
      var newHealthy, updated := JudgeServers(results, after);
      if distinct {
        PrunedCounted(updated, upstreams, after);
      }
      states := Pruned(updated, upstreams);
      if newHealthy == [] {
        newHealthy := RetainServers(healthy, upstreams);
        KeepAll(healthy, In(upstreams));
        if newHealthy == [] {
          assert upstreams == [];
          newHealthy := upstreams;
        }
      }
      healthy, history := newHealthy, after;
    }

    /** Updates the counters in upstream order and collects the servers that qualify. */
    method JudgeServers(results: map<string, bool>, ghost after: seq<Round>)
      returns (newHealthy: seq<string>, updated: map<string, Counter>)
      requires Valid() && after == history + [RoundOf(upstreams, results)]
      ensures forall s | s in newHealthy :: s in upstreams
      ensures distinct ==> newHealthy == Keep(upstreams, Judge(healthy, after))
      ensures distinct ==> forall s: string ::
                Trail(after, s) == if s in upstreams then Lookup(updated, s) else Counter(0, 0)
    {
      hide Keep, Trail, Qualifies, Lookup;
      TrailAfter(history, after, upstreams, results);
      newHealthy, updated := [], states;
      KeepNone(Judge(healthy, after));
      for i := 0 to |upstreams|
        invariant forall s | s in newHealthy :: s in upstreams
        invariant distinct ==> newHealthy == Keep(upstreams[..i], Judge(healthy, after))
        invariant distinct ==> forall s: string ::
                    Lookup(updated, s) == if s in upstreams[..i] then Trail(after, s) else Trail(history, s)
      {
        var server := upstreams[i];
        var ok := server in results && results[server];
        var counter := Bumped(Lookup(updated, server), ok);
        assert upstreams[..i + 1] == upstreams[..i] + [server];
        KeepSnoc(upstreams[..i], server, Judge(healthy, after));
        LookupUpdated(updated, server, counter);
        updated := updated[server := counter];
        if Qualifies(server in healthy, counter, ok) {
          newHealthy := newHealthy + [server];
        }
      }
      assert upstreams[..|upstreams|] == upstreams;
    }
  }

  /** The counters of servers that are still configured. */
  function Pruned(states: map<string, Counter>, upstreams: seq<string>): map<string, Counter> {
    map s | s in states && s in upstreams :: states[s]
  }

  lemma PrunedCounted(states: map<string, Counter>, upstreams: seq<string>, history: seq<Round>)
    requires forall s: string :: Trail(history, s) == if s in upstreams then Lookup(states, s) else Counter(0, 0)
    ensures Counted(Pruned(states, upstreams), history)
  {
  }

  lemma KeepNone(p: string -> bool)
    ensures Keep([], p) == []
  {
  }

  lemma KeepSnoc(servers: seq<string>, server: string, p: string -> bool)
    ensures Keep(servers + [server], p) == Keep(servers, p) + if p(server) then [server] else []
  {
  }

  lemma LookupUpdated(states: map<string, Counter>, server: string, counter: Counter)
    ensures forall s: string :: Lookup(states[server := counter], s) == if s == server then counter else Lookup(states, s)
  {
    forall s: string ensures Lookup(states[server := counter], s) == if s == server then counter else Lookup(states, s) {
    }
  }

  lemma TrailAfter(history: seq<Round>, after: seq<Round>, upstreams: seq<string>, results: map<string, bool>)
    requires after == history + [RoundOf(upstreams, results)]
    ensures forall s: string ::
              Trail(after, s) == if s in upstreams then Bumped(Trail(history, s), s in results && results[s]) else Counter(0, 0)
  {
  }

  function RoundOf(upstreams: seq<string>, results: map<string, bool>): Round {
    Round(set s | s in upstreams, set s | s in upstreams && s in results && results[s])
  }
}
