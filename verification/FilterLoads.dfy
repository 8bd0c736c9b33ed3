/** What loads, rollbacks and batches do to the active rules, stated without the steps' own
    definitions.  Checksums tell rule lists apart: the digest is injective and never empty. */
module FilterLoads {
  import opened Options
  import opened FilterRules
  import opened FilterEngine

  ghost predicate Injective(digest: Digest) {
    && (forall b, a, b', a' | digest(b, a) == digest(b', a') :: b == b' && a == a')
    && (forall b, a :: digest(b, a) != "")
  }

  // ----- checksums are those of the rules -----

  /** A checksum is that of the active rules; a source without one has no rules yet. */
  ghost predicate HonestRules(digest: Digest, info: SourceInfo, block: seq<Rule>, allow: seq<Rule>) {
    if info.checksum == "" then block == allow == [] && info.ruleCount == info.allowRuleCount == 0
    else info.checksum == digest(block, allow)
  }

  ghost predicate HonestHistory(digest: Digest, history: seq<Snapshot>) {
    forall h | h in history :: h.checksum == digest(h.block, h.allow)
  }

  ghost predicate HonestSource(digest: Digest, s: State, x: SourceId)
    requires x in s.info
  {
    HonestRules(digest, s.info[x], RulesOf(s.block, x), RulesOf(s.allow, x)) && HonestHistory(digest, s.info[x].history)
  }

  ghost predicate Honest(digest: Digest, s: State)
    requires WellFormed(s)
  {
    forall x | x in s.sources :: HonestSource(digest, s, x)
  }

  /** Histories read from disk carry the checksums of their rules. */
  ghost predicate HonestStep(digest: Digest, step: Step) {
    step.DoLoadHistory? ==> HonestHistory(digest, step.history)
  }

  lemma RememberHonest(digest: Digest, history: seq<Snapshot>, kept: Snapshot)
    requires HonestHistory(digest, history) && kept.checksum == digest(kept.block, kept.allow)
    ensures HonestHistory(digest, Remember(history, kept))
  {
    forall h | h in Remember(history, kept) ensures h in history + [kept] {
    }
  }

  lemma UpdateHonest(digest: Digest, s: State, src: SourceId, block: seq<Rule>, allow: seq<Rule>)
    requires src in s.info && HonestSource(digest, s, src) && Injective(digest)
    ensures HonestSource(digest, Update(s, src, block, allow, digest(block, allow)), src)
  {
    var info := s.info[src];
    if info.ruleCount + info.allowRuleCount > 0 {
      RememberHonest(digest, info.history, Snapshot(RulesOf(s.block, src), RulesOf(s.allow, src), info.checksum));
    }
    hide Remember;
  }

  /** Steps on one source leave the others honest. */
  lemma OthersHonest(digest: Digest, s: State, s': State, src: SourceId)
    requires WellFormed(s) && WellFormed(s') && Honest(digest, s) && s'.sources == s.sources
    requires src in s.sources ==> HonestSource(digest, s', src)
    requires forall x | x in s.info && x != src :: x in s'.info && s'.info[x] == s.info[x]
    requires forall x | x != src :: RulesOf(s'.block, x) == RulesOf(s.block, x) && RulesOf(s'.allow, x) == RulesOf(s.allow, x)
    ensures Honest(digest, s')
  {
    forall x | x in s'.sources ensures HonestSource(digest, s', x) {
      assert HonestSource(digest, s, x);
    }
  }

  lemma LoadHonest(digest: Digest, s: State, src: SourceId, loaded: Option<seq<Parsed>>)
    requires WellFormed(s) && Honest(digest, s) && Injective(digest) && WellFormed(SetRules(digest, s, src, loaded))
    ensures Honest(digest, SetRules(digest, s, src, loaded))
  {
    hide Classify, IndexesOf;
    if src in s.sources && loaded.Some? {
      var block := Classify(loaded.value, s.info[src].settings.allowOnly, false);
      var allow := Classify(loaded.value, s.info[src].settings.allowOnly, true);
      assert HonestSource(digest, s, src);
      UpdateHonest(digest, s, src, block, allow);
      UpdateElsewhere(s, src, block, allow, digest(block, allow));
      hide Update;
      OthersHonest(digest, s, SetRules(digest, s, src, loaded), src);
    }
  }

  lemma UpdateElsewhere(s: State, src: SourceId, block: seq<Rule>, allow: seq<Rule>, checksum: string)
    requires src in s.info
    ensures var u := Update(s, src, block, allow, checksum);
            && u.sources == s.sources && (forall x | x in s.info && x != src :: x in u.info && u.info[x] == s.info[x])
            && RulesOf(u.block, src) == block && RulesOf(u.allow, src) == allow
            && (forall x | x != src :: RulesOf(u.block, x) == RulesOf(s.block, x) && RulesOf(u.allow, x) == RulesOf(s.allow, x))
  {
    hide Remember;
  }

  lemma RollbackHonest(digest: Digest, s: State, id: string)
    requires Consistent(s) && Honest(digest, s) && Injective(digest)
    requires WellFormed(Rollback(digest, s, id))
    ensures Honest(digest, Rollback(digest, s, id))
  {
    var src := FindUrl(s.sources, s.info, id);
    if src.Some? && s.info[src.value].history != [] {
      assert HonestSource(digest, s, src.value);
      RestoredHonest(digest, s, src.value);
      hide Restored, HonestSource, RulesOf, IndexesOf;
      OthersHonest(digest, s, Rollback(digest, s, id), src.value);
    }
  }

  lemma RestoredHonest(digest: Digest, s: State, src: SourceId)
    requires src in s.info && s.info[src].history != [] && HonestHistory(digest, s.info[src].history) && Injective(digest)
    ensures var s' := Restored(digest, s, src);
            && s'.sources == s.sources && src in s'.info && HonestSource(digest, s', src)
            && (forall x | x in s.info && x != src :: x in s'.info && s'.info[x] == s.info[x])
            && (forall x | x != src :: RulesOf(s'.block, x) == RulesOf(s.block, x) && RulesOf(s'.allow, x) == RulesOf(s.allow, x))
  {
    var kept := s.info[src].history[|s.info[src].history| - 1];
    assert kept in s.info[src].history && kept.allow + [] == kept.allow;
  }

  lemma ReplaceHonest(digest: Digest, s: State, subs: seq<Subscription>)
    requires Consistent(s) && Honest(digest, s) && WellFormed(ReplaceUrlSources(s, subs))
    ensures Honest(digest, ReplaceUrlSources(s, subs))
  {
    var s' := ReplaceUrlSources(s, subs);
    ReplacedInfo(s, subs);
    hide ReplaceUrlSources;
    forall x | x in s'.sources ensures HonestSource(digest, s', x) {
      ReplaceKeepsRules(s, subs, x);
      if x in s.sources {
        assert HonestSource(digest, s, x);
      }
    }
  }

  /** Sources that stay are as they were; new ones have neither rules nor history. */
  lemma ReplacedInfo(s: State, subs: seq<Subscription>)
    requires Consistent(s)
    ensures var s' := ReplaceUrlSources(s, subs);
            forall x | x in s'.sources :: x in s'.info &&
              if x in s.sources then s'.info[x] == s.info[x]
              else s'.info[x].checksum == "" && s'.info[x].ruleCount == s'.info[x].allowRuleCount == 0 && s'.info[x].history == []
  {
    var m := Merge(Files(s.sources, s.info), Reusable(s.sources, s.info), s.info, s.nextId);
    MergeKeeps(m, subs);
    MergedInfo(m, s.sources, subs);
  }

  lemma {:induction false} MergedInfo(m: Merge, sources: seq<SourceId>, subs: seq<Subscription>)
    requires (forall id | id in m.reusable :: m.reusable[id] in m.info && m.reusable[id] in sources)
    requires (forall x | x in m.kept :: x in sources) && (forall x | x in m.info :: x < m.nextId)
    ensures var m' := MergeAll(m, subs);
            && (forall id | id in m'.reusable :: m'.reusable[id] in sources) && (forall x | x in m'.info :: x < m'.nextId)
            && m.nextId <= m'.nextId
            && forall x | x in m'.kept :: x in sources ||
                 (x >= m.nextId && x in m'.info && m'.info[x].checksum == ""
                  && m'.info[x].ruleCount == m'.info[x].allowRuleCount == 0 && m'.info[x].history == [])
  {
    if subs != [] {
      MergedInfo(m, sources, subs[..|subs| - 1]);
    }
  }

  lemma StepHonest(digest: Digest, s: State, step: Step)
    requires Inv(s) && Honest(digest, s) && Injective(digest) && HonestStep(digest, step) && Inv(Apply(digest, s, step))
    ensures Honest(digest, Apply(digest, s, step))
  {
    InvConsistent(s);
    InvConsistent(Apply(digest, s, step));
    hide Inv, Consistent, Honest, SetRules, BeginBatch, EndBatch, Publish, AddSource, ReplaceUrlSources, Rollback, LoadHistory;
    match step
    case DoSetRules(src, loaded) => LoadHonest(digest, s, src, loaded);
    case DoReplace(subs) => ReplaceHonest(digest, s, subs);
    case DoRollback(id) => RollbackHonest(digest, s, id);
    case DoLoadHistory(id, allowOnly, history) => HistoryHonest(digest, s, id, allowOnly, history);
    case DoAddSource(kind, id, settings) => AddHonest(digest, s, kind, id, settings);
    case DoBegin => QuietSteps(s, Build(0, [], map[], map[])); SameHonest(digest, s, BeginBatch(s));
    case DoEnd => QuietSteps(s, Build(0, [], map[], map[])); SameHonest(digest, s, EndBatch(s));
    case DoPublish(b) => QuietSteps(s, b); SameHonest(digest, s, Publish(s, b));
  }

  lemma InvConsistent(s: State)
    requires Inv(s)
    ensures Consistent(s) && WellFormed(s)
  {
  }

  /** Batches and publications leave sources and rules alone. */
  lemma QuietSteps(s: State, b: Build)
    ensures SameRules(s, BeginBatch(s)) && SameRules(s, EndBatch(s)) && SameRules(s, Publish(s, b))
  {
    hide Install, IndexesOf, Scan;
  }

  lemma SameHonest(digest: Digest, s: State, s': State)
    requires WellFormed(s) && WellFormed(s') && Honest(digest, s) && SameRules(s, s')
    ensures Honest(digest, s')
  {
    forall x | x in s'.sources ensures HonestSource(digest, s', x) {
      assert HonestSource(digest, s, x);
    }
  }

  lemma HistoryHonest(digest: Digest, s: State, id: string, allowOnly: bool, history: seq<Snapshot>)
    requires WellFormed(s) && Honest(digest, s) && HonestHistory(digest, history)
    requires WellFormed(LoadHistory(s, id, allowOnly, history))
    ensures Honest(digest, LoadHistory(s, id, allowOnly, history))
  {
    var src := FindPolicy(s.sources, s.info, id, allowOnly);
    if src.Some? {
      assert HonestSource(digest, s, src.value);
      assert forall h | h in Truncate(history) :: h in history;
      OthersHonest(digest, s, LoadHistory(s, id, allowOnly, history), src.value);
    }
  }

  lemma AddHonest(digest: Digest, s: State, kind: Kind, id: string, settings: Settings)
    requires WellFormed(s) && Honest(digest, s) && WellFormed(AddSource(s, kind, id, settings))
    ensures Honest(digest, AddSource(s, kind, id, settings))
  {
    var s' := AddSource(s, kind, id, settings);
    forall x | x in s'.sources ensures HonestSource(digest, s', x) {
      if x in s.sources {
        assert HonestSource(digest, s, x);
      }
    }
  }

  /** In every run whose persisted histories are honest, checksums are those of the rules. */
  lemma {:induction false} RunHonest(digest: Digest, steps: seq<Step>)
    requires Injective(digest) && forall i | 0 <= i < |steps| :: HonestStep(digest, steps[i])
    ensures Honest(digest, Run(digest, steps))
  {
    hide Inv, Apply, HonestSource;
    if steps != [] {
      var n := |steps| - 1;
      RunHonest(digest, steps[..n]);
      StepInv(digest, Run(digest, steps[..n]), steps[n]);
      StepHonest(digest, Run(digest, steps[..n]), steps[n]);
    }
  }

  // ----- loads -----

  /** The lines of a class keep file order: they are those at increasing positions, exactly the
      positions with the right mark. */
  lemma {:induction false} ClassifyPositions(lines: seq<Parsed>, allowOnly: bool, exception: bool) returns (at: seq<nat>)
    ensures var r := Classify(lines, allowOnly, exception);
            && |at| == |r| && (forall k | 0 <= k < |at| :: at[k] < |lines| && r[k] == lines[at[k]].rule)
            && (forall j, k | 0 <= j < k < |at| :: at[j] < at[k])
            && (forall i: nat :: i in at <==> i < |lines| && (lines[i].exception || allowOnly) == exception)
  {
    at := [];
    if lines != [] {
      var n := |lines| - 1;
      at := ClassifyPositions(lines[..n], allowOnly, exception);
      if (lines[n].exception || allowOnly) == exception {
        at := at + [n];
      }
    }
  }

  /** A successful load leaves exactly the parsed lines as the rules of its source, whether they
      are new, changed or as before, and no other source is touched. */
  lemma LoadLeavesParsed(digest: Digest, s: State, src: SourceId, lines: seq<Parsed>)
    requires WellFormed(s) && Honest(digest, s) && Injective(digest) && src in s.sources
    ensures var s', allowOnly := SetRules(digest, s, src, Some(lines)), s.info[src].settings.allowOnly;
            && RulesOf(s'.block, src) == Classify(lines, allowOnly, false)
            && RulesOf(s'.allow, src) == Classify(lines, allowOnly, true)
            && (forall x | x != src :: RulesOf(s'.block, x) == RulesOf(s.block, x) && RulesOf(s'.allow, x) == RulesOf(s.allow, x))
  {
    hide Classify, IndexesOf;
    assert HonestSource(digest, s, src);
    var block := Classify(lines, s.info[src].settings.allowOnly, false);
    var allow := Classify(lines, s.info[src].settings.allowOnly, true);
    UpdateElsewhere(s, src, block, allow, digest(block, allow));
    hide Update;
  }

  /** In every run with honest histories, a load of an active source leaves the parsed lines. */
  lemma EveryLoadTakesEffect(digest: Digest, steps: seq<Step>, src: SourceId, lines: seq<Parsed>)
    requires Injective(digest) && forall i | 0 <= i < |steps| :: HonestStep(digest, steps[i])
    requires src in Run(digest, steps).sources
    ensures var s, s' := Run(digest, steps), Run(digest, steps + [DoSetRules(src, Some(lines))]);
            && RulesOf(s'.block, src) == Classify(lines, s.info[src].settings.allowOnly, false)
            && RulesOf(s'.allow, src) == Classify(lines, s.info[src].settings.allowOnly, true)
  {
    RunHonest(digest, steps);
    LoadLeavesParsed(digest, Run(digest, steps), src, lines);
    assert (steps + [DoSetRules(src, Some(lines))])[..|steps|] == steps;
  }

  /** A load error keeps the last good rules and everything else. */
  lemma FailedLoadKeeps(digest: Digest, s: State, src: SourceId)
    requires WellFormed(s)
    ensures SetRules(digest, s, src, None) == s
  {
  }

  /** An added source is active, last, and takes its first load. */
  lemma AddedSourceLoads(digest: Digest, s: State, kind: Kind, id: string, settings: Settings, lines: seq<Parsed>)
    requires Inv(s) && Honest(digest, s) && Injective(digest)
    ensures var a := AddSource(s, kind, id, settings);
            && WellFormed(a) && a.sources == s.sources + [s.nextId] && s.nextId !in s.sources
            && a.info[s.nextId].kind == kind && a.info[s.nextId].id == id && a.info[s.nextId].settings == settings
            && var s' := SetRules(digest, a, s.nextId, Some(lines));
            && RulesOf(s'.block, s.nextId) == Classify(lines, settings.allowOnly, false)
            && RulesOf(s'.allow, s.nextId) == Classify(lines, settings.allowOnly, true)
  {
    AddSourceInv(s, kind, id, settings);
    AddHonest(digest, s, kind, id, settings);
    LoadLeavesParsed(digest, AddSource(s, kind, id, settings), s.nextId, lines);
  }

  // ----- rollbacks -----

  /** The subscription found by ID is the first one. */
  lemma {:induction false} FindUrlIsFirst(sources: seq<SourceId>, info: map<SourceId, SourceInfo>, id: string, k: nat)
    requires (forall x | x in sources :: x in info) && k < |sources| && HasId(info, sources[k], id)
    requires forall j | 0 <= j < k :: !HasId(info, sources[j], id)
    ensures FindUrl(sources, info, id) == Some(sources[k])
  {
    if k > 0 {
      FindUrlIsFirst(sources[1..], info, id, k - 1);
    }
  }

  lemma {:induction false} FindUrlNone(sources: seq<SourceId>, info: map<SourceId, SourceInfo>, id: string)
    requires forall x | x in sources :: x in info
    ensures FindUrl(sources, info, id).None? <==> forall x | x in sources :: !HasId(info, x, id)
  {
    if sources != [] {
      assert sources == [sources[0]] + sources[1..];
      FindUrlNone(sources[1..], info, id);
    }
  }

  /** A rollback of the first subscription with an ID makes its newest snapshot the active rules;
      for an exception-only source the blocked ones of the snapshot become exceptions too. */
  lemma RollbackReclassifies(digest: Digest, s: State, id: string, k: nat)
    requires WellFormed(s) && k < |s.sources| && HasId(s.info, s.sources[k], id)
    requires forall j | 0 <= j < k :: !HasId(s.info, s.sources[j], id)
    requires s.info[s.sources[k]].history != []
    ensures var src := s.sources[k];
            var s', kept := Rollback(digest, s, id), s.info[src].history[|s.info[src].history| - 1];
            && RulesOf(s'.block, src) == (if s.info[src].settings.allowOnly then [] else kept.block)
            && RulesOf(s'.allow, src) == (if s.info[src].settings.allowOnly then kept.allow + kept.block else kept.allow)
            && s'.indexes == Indexes(BuildIndex(Scan(s'.sources, s'.block)), BuildIndex(Scan(s'.sources, s'.allow)))
  {
    FindUrlIsFirst(s.sources, s.info, id, k);
  }

  /** A persisted history, once loaded, is what a rollback restores. */
  lemma LoadedHistoryRollsBack(digest: Digest, s: State, id: string, history: seq<Snapshot>, k: nat)
    requires WellFormed(s) && k < |s.sources| && HasId(s.info, s.sources[k], id) && 0 < |history|
    requires forall j | 0 <= j < k :: !HasId(s.info, s.sources[j], id)
    ensures var src := s.sources[k];
            var u := LoadHistory(s, id, s.info[src].settings.allowOnly, history);
            && WellFormed(u) && u.info[src].history != []
            && u.info[src].history[|u.info[src].history| - 1] == history[|history| - 1]
            && u.block == s.block && u.allow == s.allow && u.indexes == s.indexes
  {
    FindPolicyIsFirst(s.sources, s.info, id, k);
  }

  lemma {:induction false} FindPolicyIsFirst(sources: seq<SourceId>, info: map<SourceId, SourceInfo>, id: string, k: nat)
    requires (forall x | x in sources :: x in info) && k < |sources| && HasId(info, sources[k], id)
    requires forall j | 0 <= j < k :: !HasId(info, sources[j], id)
    ensures FindPolicy(sources, info, id, info[sources[k]].settings.allowOnly) == Some(sources[k])
  {
    if k > 0 {
      FindPolicyIsFirst(sources[1..], info, id, k - 1);
    }
  }

  // ----- batches -----

  /** Inside a batch loads leave the installed indexes alone; batches nest, and only closing the
      outermost one of a dirty batch starts a build, of the rules as they are then. */
  lemma BatchesDefer(digest: Digest, s: State, src: SourceId, loaded: Option<seq<Parsed>>)
    requires WellFormed(s)
    ensures var b := BeginBatch(s);
            && b.depth == s.depth + 1 && EndBatch(b).depth == s.depth && b.indexes == s.indexes
            && (s.depth > 0 ==> EndBatch(b).builds == s.builds && EndBatch(b).dirty == s.dirty)
            && (s.depth == 0 && s.dirty ==> EndBatch(b).builds == s.builds + multiset{Build(s.generation, s.sources, s.block, s.allow)})
            && (s.depth == 0 && !s.dirty ==> EndBatch(b).builds == s.builds)
    ensures s.depth > 0 ==> SetRules(digest, s, src, loaded).indexes == s.indexes
    ensures s.depth > 0 && SetRules(digest, s, src, loaded).generation > s.generation ==> SetRules(digest, s, src, loaded).dirty
  {
    hide Classify, Remember, IndexesOf;
  }
}
