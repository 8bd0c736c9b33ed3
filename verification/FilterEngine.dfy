/** The rule engine as a state machine over its lock-protected regions.

    Rule updates, nested update batches, index builds that run outside the lock, source
    replacement, source addition, history loading and rollback may interleave freely;
    each is one step.  Sources are identities, so a replaced source never comes back. */
module FilterEngine {
  import opened Options
  import opened FilterRules

  type Rules = map<SourceId, seq<Rule>>

  /** The checksum of a source's block and exception rules; any function will do. */
  type Digest = (seq<Rule>, seq<Rule>) -> string

  datatype Kind = File | Url

  datatype Settings = Settings(url: string, allowOnly: bool, allowPrivate: bool,
                               timeout: int, redirectLimit: int, refreshAtMinute: int)

  datatype Subscription = Subscription(id: string, enabled: bool, settings: Settings)

  datatype Snapshot = Snapshot(block: seq<Rule>, allow: seq<Rule>, checksum: string)

  datatype SourceInfo = SourceInfo(kind: Kind, id: string, settings: Settings, checksum: string,
                                   ruleCount: nat, allowRuleCount: nat, history: seq<Snapshot>)

  /** A usable line of a rule list, and whether it carries the exception mark. */
  datatype Parsed = Parsed(rule: Rule, exception: bool)

  /** An index build that has left the lock: what it reads, and the generation it saw. */
  datatype Build = Build(generation: nat, sources: seq<SourceId>, block: Rules, allow: Rules)

  /** What a lookup reads: the exception index and the block index. */
  datatype Indexes = Indexes(block: RuleIndex, allow: RuleIndex)

  datatype State = State(
    sources: seq<SourceId>, info: map<SourceId, SourceInfo>, block: Rules, allow: Rules,
    indexes: Indexes,
    depth: nat, dirty: bool, changed: bool, generation: nat,
    builds: multiset<Build>, nextId: SourceId)

  const MAX_HISTORY: nat := 3

  const Empty := State([], map[], map[], map[], Indexes(RuleIndex(map[], []), RuleIndex(map[], [])),
                       0, false, false, 0, multiset{}, 0)

  // ----- the scan of the current rules -----

  function RulesOf(rules: Rules, src: SourceId): seq<Rule> {
    if src in rules then rules[src] else []
  }

  function Tag(rules: seq<Rule>, src: SourceId): seq<Entry> {
    seq(|rules|, i requires 0 <= i < |rules| => Entry(rules[i], src))
  }

  /** All rules in scan order: source by source, each in file order. */
  function Scan(sources: seq<SourceId>, rules: Rules): seq<Entry> {
    if sources == [] then []
    else Scan(sources[..|sources| - 1], rules) +
         Tag(RulesOf(rules, sources[|sources| - 1]), sources[|sources| - 1])
  }

  /** The indexes of a set of sources and their rules. */
  function IndexesOf(sources: seq<SourceId>, block: Rules, allow: Rules): Indexes {
    Indexes(BuildIndex(Scan(sources, block)), BuildIndex(Scan(sources, allow)))
  }

  function Current(s: State): Indexes {
    IndexesOf(s.sources, s.block, s.allow)
  }

  function Built(b: Build): Indexes {
    IndexesOf(b.sources, b.block, b.allow)
  }

  /** Lookups see the current sources and rules. */
  predicate Fresh(s: State) {
    s.indexes == Current(s)
  }

  // ----- the steps -----

  function Rebuild(s: State): State {
    s.(indexes := Current(s))
  }

  function Classify(lines: seq<Parsed>, allowOnly: bool, exception: bool): seq<Rule> {
    if lines == [] then []
    else
      var rest := Classify(lines[..|lines| - 1], allowOnly, exception);
      var last := lines[|lines| - 1];
      if (last.exception || allowOnly) == exception then rest + [last.rule] else rest
  }

  function Truncate(history: seq<Snapshot>): seq<Snapshot> {
    if |history| > MAX_HISTORY then history[|history| - MAX_HISTORY..] else history
  }

  /** The newest snapshot goes last; the oldest makes room for it. */
  function Remember(history: seq<Snapshot>, kept: Snapshot): (history': seq<Snapshot>)
    ensures 0 < |history'| <= MAX_HISTORY && history'[|history'| - 1] == kept
    ensures |history| < MAX_HISTORY ==> history'[..|history'| - 1] == history
    ensures |history| >= MAX_HISTORY ==> |history'| == MAX_HISTORY && history' == (history + [kept])[|history| + 1 - MAX_HISTORY..]
  {
    Truncate(history + [kept])
  }

  /** New active rules for a source move the rule generation. */
  function Install(s: State, src: SourceId, info: SourceInfo, block: seq<Rule>, allow: seq<Rule>): State {
    s.(info := s.info[src := info], block := s.block[src := block], allow := s.allow[src := allow],
       generation := s.generation + 1)
  }

  predicate RulesChanged(info: SourceInfo, count: nat, checksum: string) {
    if info.checksum == "" then count > 0 else info.checksum != checksum
  }

  /** The rules and bookkeeping of a source after a load that changed its rules. */
  function Update(s: State, src: SourceId, block: seq<Rule>, allow: seq<Rule>, checksum: string): State
    requires src in s.info
  {
    var info := s.info[src];
    var kept := Snapshot(RulesOf(s.block, src), RulesOf(s.allow, src), info.checksum);
    var history := if info.ruleCount + info.allowRuleCount > 0 then Remember(info.history, kept)
                   else info.history;
    Install(s, src, info.(checksum := checksum, ruleCount := |block|, allowRuleCount := |allow|,
                          history := history), block, allow)
    .(changed := s.changed || (info.kind == Url && s.depth > 0))
  }

  /** Inside a batch the indexes are only marked dirty; outside they follow at once. */
  function Settle(s: State): (s': State)
    ensures SameRules(s', s)
  {
    if s.depth > 0 then s.(dirty := true) else Rebuild(s)
  }

  predicate SameRules(s: State, s': State) {
    && s.sources == s'.sources && s.info == s'.info && s.nextId == s'.nextId
    && s.block == s'.block && s.allow == s'.allow
  }

  /** The outcome of loading a source: None is a load error, which keeps the last good rules. */
  function SetRules(digest: Digest, s: State, src: SourceId, loaded: Option<seq<Parsed>>): State
    requires WellFormed(s)
  {
    if src !in s.sources || loaded.None? then s
    else
      var info := s.info[src];
      var block := Classify(loaded.value, info.settings.allowOnly, false);
      var allow := Classify(loaded.value, info.settings.allowOnly, true);
      var checksum := digest(block, allow);
      if !RulesChanged(info, |block| + |allow|, checksum) then
        s.(info := s.info[src := info.(checksum := checksum, ruleCount := |block|, allowRuleCount := |allow|)])
      else
        Settle(Update(s, src, block, allow, checksum))
  }

  function BeginBatch(s: State): State {
    s.(depth := s.depth + 1)
  }

  function Capture(s: State): Build {
    Build(s.generation, s.sources, s.block, s.allow)
  }

  /** Closing the outermost batch hands a dirty state to a build outside the lock. */
  function EndBatch(s: State): State {
    if s.depth == 0 then s
    else if s.depth > 1 then s.(depth := s.depth - 1)
    else s.(depth := 0, dirty := false, changed := false,
            builds := if s.dirty then s.builds + multiset{Capture(s)} else s.builds)
  }

  /** A finished build is published only if no rule moved since it was captured. */
  function Publish(s: State, b: Build): State {
    if b !in s.builds then s
    else
      var s' := s.(builds := s.builds - multiset{b});
      if b.generation == s.generation then s'.(indexes := Built(b)) else s'
  }

  function AddSource(s: State, kind: Kind, id: string, settings: Settings): State {
    s.(sources := s.sources + [s.nextId], nextId := s.nextId + 1,
       info := s.info[s.nextId := SourceInfo(kind, id, settings, "", 0, 0, [])])
  }

  /** Replacement in progress: the sources kept so far and the ones still reusable by ID. */
  datatype Merge = Merge(kept: seq<SourceId>, reusable: map<string, SourceId>,
                         info: map<SourceId, SourceInfo>, nextId: SourceId)

  function Files(sources: seq<SourceId>, info: map<SourceId, SourceInfo>): (r: seq<SourceId>)
    requires forall x | x in sources :: x in info
    ensures forall x | x in r :: x in sources
    ensures forall x | x in sources && info[x].kind == File :: x in r
  {
    if sources == [] then []
    else
      var rest := Files(sources[..|sources| - 1], info);
      var last := sources[|sources| - 1];
      if info[last].kind == Url then rest else rest + [last]
  }

  function Reusable(sources: seq<SourceId>, info: map<SourceId, SourceInfo>): (r: map<string, SourceId>)
    requires forall x | x in sources :: x in info
    ensures forall id | id in r :: r[id] in sources
  {
    if sources == [] then map[]
    else
      var rest := Reusable(sources[..|sources| - 1], info);
      var last := sources[|sources| - 1];
      if info[last].kind == Url && info[last].id != "" then rest[info[last].id := last] else rest
  }

  function MergeOne(m: Merge, sub: Subscription): Merge
    requires forall id | id in m.reusable :: m.reusable[id] in m.info
  {
    if !sub.enabled then m
    else if sub.id in m.reusable && m.info[m.reusable[sub.id]].settings == sub.settings then
      m.(kept := m.kept + [m.reusable[sub.id]], reusable := m.reusable - {sub.id})
    else
      m.(kept := m.kept + [m.nextId], nextId := m.nextId + 1,
         info := m.info[m.nextId := SourceInfo(Url, sub.id, sub.settings, "", 0, 0, [])])
  }

  function MergeAll(m: Merge, subs: seq<Subscription>): (m': Merge)
    requires forall id | id in m.reusable :: m.reusable[id] in m.info
    ensures forall id | id in m'.reusable :: m'.reusable[id] in m'.info
  {
    if subs == [] then m else MergeOne(MergeAll(m, subs[..|subs| - 1]), subs[|subs| - 1])
  }

  /** The subscriptions that a replacement does not keep. */
  function Dropped(sources: seq<SourceId>, info: map<SourceId, SourceInfo>, kept: seq<SourceId>): set<SourceId>
    requires forall x | x in sources :: x in info
  {
    set x | x in sources && info[x].kind == Url && x !in kept
  }

  function ReplaceUrlSources(s: State, subs: seq<Subscription>): State
    requires WellFormed(s)
  {
    var m := MergeAll(Merge(Files(s.sources, s.info), Reusable(s.sources, s.info), s.info, s.nextId), subs);
    var dropped := Dropped(s.sources, s.info, m.kept);
    Rebuild(s.(sources := m.kept, info := m.info, nextId := m.nextId,
               block := s.block - dropped, allow := s.allow - dropped,
               generation := s.generation + 1))
  }

  /** The first subscription source with this ID. */
  function FindUrl(sources: seq<SourceId>, info: map<SourceId, SourceInfo>, id: string): (r: Option<SourceId>)
    requires forall x | x in sources :: x in info
    ensures r.Some? ==> r.value in sources
  {
    if sources == [] then None
    else if info[sources[0]].kind == Url && info[sources[0]].id == id then Some(sources[0])
    else FindUrl(sources[1..], info, id)
  }

  function RestoredBlock(kept: Snapshot, allowOnly: bool): seq<Rule> {
    if allowOnly then [] else kept.block
  }

  function RestoredAllow(kept: Snapshot, allowOnly: bool): seq<Rule> {
    if allowOnly then kept.allow + kept.block else kept.allow
  }

  /** The newest snapshot of a source becomes its rules and leaves its history. */
  function Restored(digest: Digest, s: State, src: SourceId): State
    requires src in s.info && s.info[src].history != []
  {
    var info := s.info[src];
    var kept := info.history[|info.history| - 1];
    var allowOnly := info.settings.allowOnly;
    var block, allow := RestoredBlock(kept, allowOnly), RestoredAllow(kept, allowOnly);
    var checksum := if allowOnly && |kept.block| > 0 then digest(block, allow) else kept.checksum;
    Install(s, src, info.(history := info.history[..|info.history| - 1], checksum := checksum,
                          ruleCount := |block|, allowRuleCount := |allow|), block, allow)
  }

  function Restore(digest: Digest, s: State, src: SourceId): State
    requires src in s.info && s.info[src].history != []
  {
    Rebuild(Restored(digest, s, src))
  }

  /** The first subscription with this ID exists and remembers a snapshot. */
  predicate HasHistory(s: State, id: string)
    requires WellFormed(s)
  {
    var src := FindUrl(s.sources, s.info, id);
    src.Some? && s.info[src.value].history != []
  }

  /** Rollback by ID fails when the source or its history is missing. */
  function Rollback(digest: Digest, s: State, id: string): State
    requires WellFormed(s)
  {
    var src := FindUrl(s.sources, s.info, id);
    if src.None? || s.info[src.value].history == [] then s else Restore(digest, s, src.value)
  }

  /** The first subscription with this ID and policy. */
  function FindPolicy(sources: seq<SourceId>, info: map<SourceId, SourceInfo>, id: string, allowOnly: bool): (r: Option<SourceId>)
    requires forall x | x in sources :: x in info
    ensures r.Some? ==> r.value in sources && HasPolicy(info[r.value], id, allowOnly)
    ensures r.None? ==> forall x | x in sources :: !HasPolicy(info[x], id, allowOnly)
  {
    if sources == [] then None
    else if HasPolicy(info[sources[0]], id, allowOnly) then Some(sources[0])
    else FindPolicy(sources[1..], info, id, allowOnly)
  }

  predicate HasPolicy(info: SourceInfo, id: string, allowOnly: bool) {
    info.kind == Url && info.id == id && info.settings.allowOnly == allowOnly
  }

  /** Persisted history arrives for the first source with this ID and policy. */
  function LoadHistory(s: State, id: string, allowOnly: bool, history: seq<Snapshot>): State
    requires WellFormed(s)
  {
    match FindPolicy(s.sources, s.info, id, allowOnly)
    case None => s
    case Some(src) => s.(info := s.info[src := s.info[src].(history := Truncate(history))])
  }

  // ----- runs -----

  datatype Step =
    | DoSetRules(src: SourceId, loaded: Option<seq<Parsed>>)
    | DoBegin
    | DoEnd
    | DoPublish(build: Build)
    | DoAddSource(kind: Kind, id: string, settings: Settings)
    | DoReplace(subs: seq<Subscription>)
    | DoRollback(id: string)
    | DoLoadHistory(id: string, allowOnly: bool, history: seq<Snapshot>)

  predicate WellFormed(s: State) {
    Owned(s.sources, s.info, s.block, s.allow, s.nextId)
  }

  /** Rules belong to current sources, and every source is known. */
  predicate Owned(sources: seq<SourceId>, info: map<SourceId, SourceInfo>, block: Rules, allow: Rules, nextId: SourceId) {
    && (forall x | x in sources :: x in info)
    && (forall x | x in info :: x < nextId)
    && (forall x | x in block :: x in sources)
    && (forall x | x in allow :: x in sources)
  }

  function Apply(digest: Digest, s: State, step: Step): State
    requires WellFormed(s)
  {
    match step
    case DoSetRules(src, loaded) => SetRules(digest, s, src, loaded)
    case DoBegin => BeginBatch(s)
    case DoEnd => EndBatch(s)
    case DoPublish(b) => Publish(s, b)
    case DoAddSource(kind, id, settings) => AddSource(s, kind, id, settings)
    case DoReplace(subs) => ReplaceUrlSources(s, subs)
    case DoRollback(id) => Rollback(digest, s, id)
    case DoLoadHistory(id, allowOnly, history) => LoadHistory(s, id, allowOnly, history)
  }

  // ----- the invariant -----

  /** A stale index is always about to be replaced: by the end of an open dirty batch,
      or by an outstanding build of the current generation, which is a build of the
      current rules. */
  ghost predicate NeverStale(s: State) {
    Covered(s.depth, s.dirty, s.generation, s.builds, s.indexes, Current(s))
  }

  ghost predicate Covered(depth: nat, dirty: bool, generation: nat, builds: multiset<Build>,
                          installed: Indexes, current: Indexes)
  {
    && (depth == 0 ==> !dirty)
    && (forall b | b in builds :: b.generation <= generation)
    && (forall b | b in builds && b.generation == generation :: Built(b) == current)
    && (installed != current ==> dirty || exists b :: b in builds && b.generation == generation)
  }

  ghost predicate Consistent(s: State) {
    WellFormed(s) && Bounded(s.info) && RespectsPolicy(s.info, s.block)
  }

  ghost predicate Bounded(info: map<SourceId, SourceInfo>) {
    forall x | x in info :: |info[x].history| <= MAX_HISTORY
  }

  /** Exception-only sources never block. */
  ghost predicate RespectsPolicy(info: map<SourceId, SourceInfo>, block: Rules) {
    forall x | x in block && x in info && info[x].settings.allowOnly :: block[x] == []
  }

  ghost predicate Inv(s: State) {
    Consistent(s) && NeverStale(s)
  }

  /** A source without rules does not change the scan. */
  lemma ScanIgnoresEmptySource(sources: seq<SourceId>, rules: Rules, src: SourceId)
    requires src !in rules
    ensures Scan(sources + [src], rules) == Scan(sources, rules)
  {
  }

  lemma {:induction false} MergeKeeps(m: Merge, subs: seq<Subscription>)
    requires forall id | id in m.reusable :: m.reusable[id] in m.info
    requires forall x | x in m.kept :: x in m.info
    requires forall x | x in m.info :: x < m.nextId
    requires forall x | x in m.info :: |m.info[x].history| <= MAX_HISTORY
    ensures var m' := MergeAll(m, subs);
            && m.kept <= m'.kept && m.nextId <= m'.nextId
            && (forall x | x in m'.kept :: x in m'.info)
            && (forall x | x in m'.info :: x < m'.nextId && |m'.info[x].history| <= MAX_HISTORY)
            && (forall x | x in m.info :: x in m'.info && m'.info[x] == m.info[x])
            && (forall id | id in m'.reusable :: id in m.reusable && m'.reusable[id] == m.reusable[id])
  {
    if subs != [] {
      MergeKeeps(m, subs[..|subs| - 1]);
    }
  }

  /** Rebuilding under the lock at a new generation leaves no stale index behind. */
  lemma RebuildNeverStale(s: State)
    requires s.depth == 0 ==> !s.dirty
    requires forall b | b in s.builds :: b.generation < s.generation
    ensures NeverStale(Rebuild(s))
  {
  }

  /** Rules that move inside a batch are covered by the dirty flag. */
  lemma DirtyNeverStale(s: State)
    requires s.depth > 0 && s.dirty
    requires forall b | b in s.builds :: b.generation < s.generation
    ensures NeverStale(s)
  {
  }

  lemma {:induction false} AllowOnlyNeverBlocks(lines: seq<Parsed>)
    ensures Classify(lines, true, false) == []
  {
    if lines != [] {
      AllowOnlyNeverBlocks(lines[..|lines| - 1]);
    }
  }

  lemma InstallConsistent(s: State, src: SourceId, info: SourceInfo, block: seq<Rule>, allow: seq<Rule>)
    requires Consistent(s) && src in s.sources
    requires |info.history| <= MAX_HISTORY && (info.settings.allowOnly ==> block == [])
    ensures Consistent(Install(s, src, info, block, allow))
  {
  }

  lemma UpdateConsistent(s: State, src: SourceId, block: seq<Rule>, allow: seq<Rule>, checksum: string)
    requires Consistent(s) && src in s.sources && (s.info[src].settings.allowOnly ==> block == [])
    ensures Consistent(Update(s, src, block, allow, checksum))
  {
    InstallConsistent(s, src, Update(s, src, block, allow, checksum).info[src], block, allow);
  }

  lemma SetRulesConsistent(digest: Digest, s: State, src: SourceId, loaded: Option<seq<Parsed>>)
    requires Consistent(s)
    ensures Consistent(SetRules(digest, s, src, loaded))
  {
    if src in s.sources && loaded.Some? {
      AllowOnlyNeverBlocks(loaded.value);
      var block := Classify(loaded.value, s.info[src].settings.allowOnly, false);
      var allow := Classify(loaded.value, s.info[src].settings.allowOnly, true);
      var checksum := digest(block, allow);
      UpdateConsistent(s, src, block, allow, checksum);
      InfoConsistent(s, src, s.info[src].(checksum := checksum, ruleCount := |block|, allowRuleCount := |allow|));
    }
  }

  lemma InfoConsistent(s: State, src: SourceId, info: SourceInfo)
    requires Consistent(s) && src in s.sources
    requires |info.history| <= MAX_HISTORY && info.settings == s.info[src].settings
    ensures Consistent(s.(info := s.info[src := info]))
  {
  }

  lemma RollbackConsistent(digest: Digest, s: State, id: string)
    requires Consistent(s)
    ensures Consistent(Rollback(digest, s, id))
  {
    var s' := Rollback(digest, s, id);
    if s'.generation > s.generation {
      var src := FindUrl(s.sources, s.info, id).value;
      InstallConsistent(s, src, s'.info[src], s'.block[src], s'.allow[src]);
    }
  }

  lemma SetRulesNeverStale(digest: Digest, s: State, src: SourceId, loaded: Option<seq<Parsed>>)
    requires WellFormed(s) && NeverStale(s)
    ensures NeverStale(SetRules(digest, s, src, loaded))
  {
    hide Classify, IndexesOf, Update, Settle, Covered;
    if src in s.sources && loaded.Some? {
      var block := Classify(loaded.value, s.info[src].settings.allowOnly, false);
      var allow := Classify(loaded.value, s.info[src].settings.allowOnly, true);
      UpdateNeverStale(s, src, block, allow, digest(block, allow));
    }
  }

  lemma UpdateNeverStale(s: State, src: SourceId, block: seq<Rule>, allow: seq<Rule>, checksum: string)
    requires src in s.info && NeverStale(s)
    ensures NeverStale(Settle(Update(s, src, block, allow, checksum)))
  {
    hide IndexesOf, Remember;
    var u := Update(s, src, block, allow, checksum);
    if s.depth > 0 {
      DirtyNeverStale(Settle(u));
    } else {
      RebuildNeverStale(u);
    }
  }

  lemma ReplaceConsistent(s: State, subs: seq<Subscription>)
    requires Consistent(s)
    ensures Consistent(ReplaceUrlSources(s, subs))
  {
    var m0 := Merge(Files(s.sources, s.info), Reusable(s.sources, s.info), s.info, s.nextId);
    MergeKeeps(m0, subs);
    var m := MergeAll(m0, subs);
    RemainingOwned(s.block, s, m.kept);
    RemainingOwned(s.allow, s, m.kept);
  }

  lemma RemainingOwned(rules: Rules, s: State, kept: seq<SourceId>)
    requires WellFormed(s) && forall x | x in rules :: x in s.sources
    requires forall x | x in Files(s.sources, s.info) :: x in kept
    ensures forall x | x in rules - Dropped(s.sources, s.info, kept) :: x in kept && x in rules
  {
  }

  lemma AddSourceInv(s: State, kind: Kind, id: string, settings: Settings)
    requires Inv(s)
    ensures Inv(AddSource(s, kind, id, settings))
  {
    assert s.nextId !in s.block && s.nextId !in s.allow;
    ScanIgnoresEmptySource(s.sources, s.block, s.nextId);
    ScanIgnoresEmptySource(s.sources, s.allow, s.nextId);
  }

  lemma EndInv(s: State)
    requires Inv(s)
    ensures Inv(EndBatch(s))
  {
    if s.depth == 1 && s.dirty {
      assert Capture(s) in EndBatch(s).builds;
    }
  }

  lemma PublishCovered(s: State, b: Build, current: Indexes)
    requires Covered(s.depth, s.dirty, s.generation, s.builds, s.indexes, current) && b in s.builds
    ensures var s' := Publish(s, b);
            Covered(s'.depth, s'.dirty, s'.generation, s'.builds, s'.indexes, current)
  {
    var builds := s.builds - multiset{b};
    assert forall c | c in builds :: c in s.builds;
    assert forall c | c in s.builds && c != b :: c in builds;
  }

  lemma PublishInv(s: State, b: Build)
    requires Inv(s)
    ensures Inv(Publish(s, b))
  {
    if b in s.builds {
      PublishCovered(s, b, Current(s));
    }
  }

  lemma SetRulesInv(digest: Digest, s: State, src: SourceId, loaded: Option<seq<Parsed>>)
    requires Inv(s)
    ensures Inv(SetRules(digest, s, src, loaded))
  {
    hide SetRules, Consistent, NeverStale;
    SetRulesConsistent(digest, s, src, loaded);
    assert WellFormed(s) by { ConsistentWellFormed(s); }
    SetRulesNeverStale(digest, s, src, loaded);
  }

  lemma ConsistentWellFormed(s: State)
    requires Consistent(s)
    ensures WellFormed(s)
  {
  }

  lemma BeginInv(s: State)
    requires Inv(s)
    ensures Inv(BeginBatch(s))
  {
  }

  lemma ReplaceInv(s: State, subs: seq<Subscription>)
    requires Inv(s)
    ensures Inv(ReplaceUrlSources(s, subs))
  {
    hide Consistent;
    ConsistentWellFormed(s);
    ReplaceConsistent(s, subs);
    RebuildNeverStale(ReplaceUrlSources(s, subs));
  }

  lemma RollbackInv(digest: Digest, s: State, id: string)
    requires Inv(s)
    ensures Inv(Rollback(digest, s, id))
  {
    hide Consistent;
    ConsistentWellFormed(s);
    RollbackConsistent(digest, s, id);
    if Rollback(digest, s, id).generation > s.generation {
      RebuildNeverStale(Rollback(digest, s, id));
    }
  }

  lemma LoadHistoryInv(s: State, id: string, allowOnly: bool, history: seq<Snapshot>)
    requires Inv(s)
    ensures Inv(LoadHistory(s, id, allowOnly, history))
  {
    var src := FindPolicy(s.sources, s.info, id, allowOnly);
    if src.Some? {
      InfoConsistent(s, src.value, s.info[src.value].(history := Truncate(history)));
    }
  }

  /** Every step keeps the invariant. */
  lemma StepInv(digest: Digest, s: State, step: Step)
    requires Inv(s)
    ensures Inv(Apply(digest, s, step))
  {
    assert WellFormed(s) by { ConsistentWellFormed(s); }
    hide Inv, SetRules, BeginBatch, EndBatch, Publish, AddSource, ReplaceUrlSources, Rollback, LoadHistory;
    match step
    case DoSetRules(src, loaded) => SetRulesInv(digest, s, src, loaded);
    case DoBegin => BeginInv(s);
    case DoEnd => EndInv(s);
    case DoPublish(b) => PublishInv(s, b);
    case DoAddSource(kind, id, settings) => AddSourceInv(s, kind, id, settings);
    case DoReplace(subs) => ReplaceInv(s, subs);
    case DoRollback(id) => RollbackInv(digest, s, id);
    case DoLoadHistory(id, allowOnly, history) => LoadHistoryInv(s, id, allowOnly, history);
  }

  lemma EmptyInv()
    ensures Inv(Empty)
  {
  }

  /** The state after a run of steps, in any interleaving, from the empty engine. */
  ghost function Run(digest: Digest, steps: seq<Step>): (s: State)
    ensures Inv(s)
  {
    if steps == [] then
      EmptyInv();
      Empty
    else
      var s0 := Run(digest, steps[..|steps| - 1]);
      StepInv(digest, s0, steps[|steps| - 1]);
      Apply(digest, s0, steps[|steps| - 1])
  }

  /** With no open batch and no outstanding build of the current generation, lookups see
      exactly the current rules, whatever was interleaved before. */
  lemma FreshAtRest(digest: Digest, steps: seq<Step>)
    ensures var s := Run(digest, steps);
            s.depth == 0 && (forall b | b in s.builds :: b.generation != s.generation) ==> Fresh(s)
  {
  }

  // ----- rollback undoes an update -----

  lemma {:induction false} ScanSameRules(sources: seq<SourceId>, rules: Rules, rules': Rules)
    requires forall x | x in sources :: RulesOf(rules, x) == RulesOf(rules', x)
    ensures Scan(sources, rules) == Scan(sources, rules')
  {
    if sources != [] {
      ScanSameRules(sources[..|sources| - 1], rules, rules');
    }
  }

  lemma {:induction false} FindUrlSameIds(sources: seq<SourceId>, info: map<SourceId, SourceInfo>,
                                          info': map<SourceId, SourceInfo>, id: string)
    requires forall x | x in sources :: x in info && x in info'
    requires forall x | x in sources :: info[x].kind == info'[x].kind && info[x].id == info'[x].id
    ensures FindUrl(sources, info, id) == FindUrl(sources, info', id)
  {
    if sources != [] {
      FindUrlSameIds(sources[1..], info, info', id);
    }
  }

  /** u holds, as the newest snapshot of src, the rules src has in s; all else is as in s. */
  ghost predicate Remembers(s: State, u: State, src: SourceId) {
    && u.sources == s.sources && src in s.info && src in u.info
    && (forall x | x in s.info && x != src :: x in u.info && u.info[x] == s.info[x])
    && (forall x | x != src :: RulesOf(u.block, x) == RulesOf(s.block, x))
    && (forall x | x != src :: RulesOf(u.allow, x) == RulesOf(s.allow, x))
    && u.info[src].kind == s.info[src].kind && u.info[src].id == s.info[src].id
    && u.info[src].settings == s.info[src].settings
    && var history := u.info[src].history;
    && 0 < |history|
    && history[|history| - 1] == Snapshot(RulesOf(s.block, src), RulesOf(s.allow, src), s.info[src].checksum)
    && (|s.info[src].history| < MAX_HISTORY ==> history[..|history| - 1] == s.info[src].history)
  }

  lemma UpdateRemembers(s: State, src: SourceId, block: seq<Rule>, allow: seq<Rule>, checksum: string)
    requires WellFormed(s) && src in s.sources && s.info[src].ruleCount + s.info[src].allowRuleCount > 0
    ensures var u := Update(s, src, block, allow, checksum);
            WellFormed(u) && Remembers(s, u, src)
  {
    hide Remembers;
    UpdateShape(s, src, block, allow, checksum);
    var kept := Snapshot(RulesOf(s.block, src), RulesOf(s.allow, src), s.info[src].checksum);
    ShapeRemembers(s, Update(s, src, block, allow, checksum), src, Remember(s.info[src].history, kept));
  }

  lemma UpdateShape(s: State, src: SourceId, block: seq<Rule>, allow: seq<Rule>, checksum: string)
    requires WellFormed(s) && src in s.sources && s.info[src].ruleCount + s.info[src].allowRuleCount > 0
    ensures var u := Update(s, src, block, allow, checksum);
            var kept := Snapshot(RulesOf(s.block, src), RulesOf(s.allow, src), s.info[src].checksum);
            && WellFormed(u) && u.sources == s.sources && u.block == s.block[src := block] && u.allow == s.allow[src := allow]
            && u.info == s.info[src := u.info[src]]
            && u.info[src].kind == s.info[src].kind && u.info[src].id == s.info[src].id
            && u.info[src].settings == s.info[src].settings
            && u.info[src].history == Remember(s.info[src].history, kept)
  {
  }

  lemma ShapeRemembers(s: State, u: State, src: SourceId, history: seq<Snapshot>)
    requires src in s.info && src in u.info && src in u.block && src in u.allow
    requires u.sources == s.sources && u.info == s.info[src := u.info[src]]
    requires u.block == s.block[src := u.block[src]] && u.allow == s.allow[src := u.allow[src]]
    requires u.info[src].kind == s.info[src].kind && u.info[src].id == s.info[src].id
    requires u.info[src].settings == s.info[src].settings && u.info[src].history == history
    requires history == Remember(s.info[src].history,
                                 Snapshot(RulesOf(s.block, src), RulesOf(s.allow, src), s.info[src].checksum))
    ensures Remembers(s, u, src)
  {
  }

  lemma SetRulesRemembers(digest: Digest, s: State, src: SourceId, loaded: Option<seq<Parsed>>)
    requires WellFormed(s) && src in s.sources && s.info[src].ruleCount + s.info[src].allowRuleCount > 0
    requires SetRules(digest, s, src, loaded).generation > s.generation
    ensures WellFormed(SetRules(digest, s, src, loaded)) && Remembers(s, SetRules(digest, s, src, loaded), src)
  {
    var block := Classify(loaded.value, s.info[src].settings.allowOnly, false);
    var allow := Classify(loaded.value, s.info[src].settings.allowOnly, true);
    var checksum := digest(block, allow);
    SettledRemembers(s, src, block, allow, checksum);
    assert SetRules(digest, s, src, loaded) == Settle(Update(s, src, block, allow, checksum));
  }

  lemma SettledRemembers(s: State, src: SourceId, block: seq<Rule>, allow: seq<Rule>, checksum: string)
    requires WellFormed(s) && src in s.sources && s.info[src].ruleCount + s.info[src].allowRuleCount > 0
    ensures var u := Settle(Update(s, src, block, allow, checksum));
            WellFormed(u) && Remembers(s, u, src)
  {
    UpdateRemembers(s, src, block, allow, checksum);
    SameRulesRemember(s, Update(s, src, block, allow, checksum), Settle(Update(s, src, block, allow, checksum)), src);
  }

  lemma SameRulesRemember(s: State, u: State, u': State, src: SourceId)
    requires WellFormed(u) && Remembers(s, u, src) && SameRules(u', u)
    ensures WellFormed(u') && Remembers(s, u', src)
  {
  }

  /** What a successful rollback does: the newest snapshot of the source becomes its rules. */
  lemma RollbackRestores(digest: Digest, u: State, src: SourceId, id: string)
    requires WellFormed(u) && FindUrl(u.sources, u.info, id) == Some(src) && u.info[src].history != []
    requires var kept := u.info[src].history[|u.info[src].history| - 1];
             u.info[src].settings.allowOnly ==> kept.block == []
    ensures var s' := Rollback(digest, u, id);
            var kept := u.info[src].history[|u.info[src].history| - 1];
            && s'.sources == u.sources
            && RulesOf(s'.block, src) == kept.block && RulesOf(s'.allow, src) == kept.allow
            && (forall x | x != src :: RulesOf(s'.block, x) == RulesOf(u.block, x))
            && (forall x | x != src :: RulesOf(s'.allow, x) == RulesOf(u.allow, x))
            && src in s'.info && s'.info[src].checksum == kept.checksum
            && s'.info[src].history == u.info[src].history[..|u.info[src].history| - 1]
            && Fresh(s')
  {
    var kept := u.info[src].history[|u.info[src].history| - 1];
    assert kept.allow + [] == kept.allow;
  }

  /** s' has the rules of s, and what s remembers of src. */
  ghost predicate Reverted(s: State, s': State, src: SourceId) {
    && src in s.info && src in s'.info
    && s'.sources == s.sources
    && (forall x | x in s.sources :: RulesOf(s'.block, x) == RulesOf(s.block, x))
    && (forall x | x in s.sources :: RulesOf(s'.allow, x) == RulesOf(s.allow, x))
    && s'.info[src].checksum == s.info[src].checksum
    && (|s.info[src].history| < MAX_HISTORY ==> s'.info[src].history == s.info[src].history)
  }

  lemma RollbackReverts(digest: Digest, s: State, u: State, src: SourceId, id: string)
    requires Consistent(s) && WellFormed(u) && src in s.sources && FindUrl(s.sources, s.info, id) == Some(src)
    requires Remembers(s, u, src)
    ensures Reverted(s, Rollback(digest, u, id), src)
    ensures Rollback(digest, u, id).indexes == Current(s)
  {
    FindUrlSameIds(s.sources, s.info, u.info, id);
    RollbackRestores(digest, u, src, id);
    SameRulesSameIndexes(s, Rollback(digest, u, id), src);
  }

  lemma SameRulesSameIndexes(s: State, s': State, src: SourceId)
    requires Reverted(s, s', src) && Fresh(s')
    ensures s'.indexes == Current(s)
  {
    ScanSameRules(s.sources, s.block, s'.block);
    ScanSameRules(s.sources, s.allow, s'.allow);
  }

  /** Rolling back an update that changed a subscription restores its rules and checksum,
      the rules of every other source, and the indexes of the rules before the update. */
  lemma RollbackUndoesUpdate(digest: Digest, s: State, src: SourceId, id: string, loaded: Option<seq<Parsed>>)
    requires Inv(s) && src in s.sources && FindUrl(s.sources, s.info, id) == Some(src)
    requires s.info[src].ruleCount + s.info[src].allowRuleCount > 0
    requires SetRules(digest, s, src, loaded).generation > s.generation
    ensures var u := SetRules(digest, s, src, loaded);
            && WellFormed(u)
            && Reverted(s, Rollback(digest, u, id), src)
            && Rollback(digest, u, id).indexes == Current(s)
  {
    SetRulesRemembers(digest, s, src, loaded);
    RollbackReverts(digest, s, SetRules(digest, s, src, loaded), src, id);
  }

  // ----- what a load installs -----

  lemma {:induction false} ClassifyMembers(lines: seq<Parsed>, allowOnly: bool, exception: bool, rule: Rule)
    ensures rule in Classify(lines, allowOnly, exception) <==>
            exists p :: p in lines && p.rule == rule && (p.exception || allowOnly) == exception
  {
    if lines != [] {
      var n := |lines| - 1;
      ClassifyMembers(lines[..n], allowOnly, exception, rule);
      assert lines == lines[..n] + [lines[n]];
    }
  }

  /** A load that moves the rules installs exactly the parsed lines of its source: exceptions,
      or every line of an exception-only source, allow; the others block. */
  lemma LoadInstalls(digest: Digest, s: State, src: SourceId, loaded: Option<seq<Parsed>>, rule: Rule)
    requires WellFormed(s) && SetRules(digest, s, src, loaded).generation > s.generation
    ensures var s' := SetRules(digest, s, src, loaded);
            var allowOnly := s.info[src].settings.allowOnly;
            && (rule in RulesOf(s'.allow, src) <==> exists p :: p in loaded.value && p.rule == rule && (p.exception || allowOnly))
            && (rule in RulesOf(s'.block, src) <==> exists p :: p in loaded.value && p.rule == rule && !p.exception && !allowOnly)
            && (forall x | x != src :: RulesOf(s'.block, x) == RulesOf(s.block, x) && RulesOf(s'.allow, x) == RulesOf(s.allow, x))
  {
    hide Classify, IndexesOf, Remember;
    ClassifyMembers(loaded.value, s.info[src].settings.allowOnly, false, rule);
    ClassifyMembers(loaded.value, s.info[src].settings.allowOnly, true, rule);
  }

  // ----- what a replacement leaves -----

  function Enabled(subs: seq<Subscription>): seq<Subscription> {
    if subs == [] then []
    else Enabled(subs[..|subs| - 1]) + if subs[|subs| - 1].enabled then [subs[|subs| - 1]] else []
  }

  ghost predicate Distinct(sources: seq<SourceId>) {
    forall i, j | 0 <= i < j < |sources| :: sources[i] != sources[j]
  }

  /** One source per subscription, in order, with its ID and settings. */
  ghost predicate Follows(sources: seq<SourceId>, subs: seq<Subscription>, info: map<SourceId, SourceInfo>) {
    && |sources| == |subs|
    && forall i | 0 <= i < |subs| ::
         && sources[i] in info && info[sources[i]].kind == Url
         && info[sources[i]].id == subs[i].id && info[sources[i]].settings == subs[i].settings
  }

  /** A replacement in progress uses no source twice. */
  ghost predicate MergeInv(m: Merge) {
    && Distinct(m.kept) && (forall x | x in m.kept :: x in m.info) && (forall x | x in m.info :: x < m.nextId)
    && (forall id | id in m.reusable ::
          HasId(m.info, m.reusable[id], id) && m.reusable[id] !in m.kept)
  }

  lemma MergeOneFollows(m: Merge, sub: Subscription, n: nat, subs: seq<Subscription>)
    requires MergeInv(m) && n <= |m.kept| && Follows(m.kept[n..], subs, m.info)
    ensures var m' := MergeOne(m, sub);
            && MergeInv(m') && m.kept <= m'.kept
            && Follows(m'.kept[n..], subs + if sub.enabled then [sub] else [], m'.info)
  {
    var m' := MergeOne(m, sub);
    if sub.enabled {
      DistinctSnoc(m.kept, m'.kept[|m.kept|]);
      assert m'.kept[n..] == m.kept[n..] + [m'.kept[|m.kept|]];
    }
  }

  lemma DistinctSnoc(sources: seq<SourceId>, x: SourceId)
    requires Distinct(sources) && x !in sources
    ensures Distinct(sources + [x])
  {
  }

  lemma MergeKnown(m: Merge)
    requires MergeInv(m)
    ensures forall id | id in m.reusable :: m.reusable[id] in m.info
  {
  }

  lemma {:induction false} MergeFollows(m: Merge, subs: seq<Subscription>, n: nat)
    requires MergeInv(m) && n == |m.kept|
    ensures var m' := MergeAll(m, subs);
            MergeInv(m') && m.kept <= m'.kept && Follows(m'.kept[n..], Enabled(subs), m'.info)
  {
    MergeKnown(m);
    hide MergeInv, Follows, MergeOne;
    if subs == [] {
      FollowsNone(m);
    } else {
      MergeFollows(m, subs[..|subs| - 1], n);
      MergeOneFollows(MergeAll(m, subs[..|subs| - 1]), subs[|subs| - 1], n, Enabled(subs[..|subs| - 1]));
    }
  }

  lemma FollowsNone(m: Merge)
    ensures Follows(m.kept[|m.kept|..], [], m.info)
  {
  }

  lemma {:induction false} FilesDistinct(sources: seq<SourceId>, info: map<SourceId, SourceInfo>)
    requires Distinct(sources) && forall x | x in sources :: x in info
    ensures Distinct(Files(sources, info)) && forall x | x in Files(sources, info) :: info[x].kind == File
  {
    if sources != [] {
      FilesDistinct(sources[..|sources| - 1], info);
    }
  }

  predicate HasId(info: map<SourceId, SourceInfo>, src: SourceId, id: string) {
    src in info && info[src].kind == Url && info[src].id == id
  }

  lemma {:induction false} ReusableIds(sources: seq<SourceId>, info: map<SourceId, SourceInfo>, id: string)
    requires (forall x | x in sources :: x in info) && id in Reusable(sources, info)
    ensures HasId(info, Reusable(sources, info)[id], id)
  {
    var n := |sources| - 1;
    if info[sources[n]].kind != Url || info[sources[n]].id == "" || info[sources[n]].id != id {
      ReusableIds(sources[..n], info, id);
    }
  }

  lemma BeforeMerge(s: State)
    requires WellFormed(s) && Distinct(s.sources)
    ensures MergeInv(Merge(Files(s.sources, s.info), Reusable(s.sources, s.info), s.info, s.nextId))
  {
    FilesDistinct(s.sources, s.info);
    forall id | id in Reusable(s.sources, s.info) ensures HasId(s.info, Reusable(s.sources, s.info)[id], id) {
      ReusableIds(s.sources, s.info, id);
    }
  }

  /** After a replacement the sources are the files, in order, and then one source of its own
      per enabled subscription, in order, with its ID and settings. */
  lemma ReplaceFollowsSubscriptions(s: State, subs: seq<Subscription>)
    requires WellFormed(s) && Distinct(s.sources)
    ensures var s' := ReplaceUrlSources(s, subs);
            var files := Files(s.sources, s.info);
            && files <= s'.sources && Distinct(s'.sources)
            && Follows(s'.sources[|files|..], Enabled(subs), s'.info)
  {
    var files, reusable := Files(s.sources, s.info), Reusable(s.sources, s.info);
    BeforeMerge(s);
    MergeFollows(Merge(files, reusable, s.info, s.nextId), subs, |files|);
  }

  /** In every run each source is listed once. */
  lemma {:induction false} RunDistinct(digest: Digest, steps: seq<Step>)
    ensures Distinct(Run(digest, steps).sources)
  {
    if steps != [] {
      var n := |steps| - 1;
      RunDistinct(digest, steps[..n]);
      StepDistinct(digest, Run(digest, steps[..n]), steps[n]);
    }
  }

  lemma StepDistinct(digest: Digest, s: State, step: Step)
    requires WellFormed(s) && Distinct(s.sources)
    ensures Distinct(Apply(digest, s, step).sources)
  {
    match step
    case DoAddSource(_, _, _) => DistinctSnoc(s.sources, s.nextId);
    case DoReplace(subs) => ReplaceFollowsSubscriptions(s, subs);
    case _ =>
  }

  /** Sources that stay keep their rules, new ones have none, and dropped ones lose theirs. */
  lemma ReplaceKeepsRules(s: State, subs: seq<Subscription>, src: SourceId)
    requires Consistent(s)
    ensures var s' := ReplaceUrlSources(s, subs);
            var stays := src in s.sources && src in s'.sources;
            && RulesOf(s'.block, src) == (if stays then RulesOf(s.block, src) else [])
            && RulesOf(s'.allow, src) == (if stays then RulesOf(s.allow, src) else [])
  {
    hide MergeAll;
    var m0 := Merge(Files(s.sources, s.info), Reusable(s.sources, s.info), s.info, s.nextId);
    MergeKeeps(m0, subs);
  }

  /** An enabled subscription takes over the source of its ID if the settings are unchanged and
      no earlier enabled subscription has that ID. */
  lemma {:induction false} MergeTakesOver(m: Merge, subs: seq<Subscription>, i: nat)
    requires MergeInv(m) && i < |subs| && subs[i].enabled && subs[i].id in m.reusable
    requires m.info[m.reusable[subs[i].id]].settings == subs[i].settings
    requires forall j | 0 <= j < i && subs[j].enabled :: subs[j].id != subs[i].id
    ensures m.reusable[subs[i].id] in MergeAll(m, subs).kept
  {
    var n := |subs| - 1;
    if i < n {
      MergeTakesOver(m, subs[..n], i);
    } else {
      StillReusable(m, subs[..n], subs[n].id);
    }
  }

  lemma {:induction false} StillReusable(m: Merge, subs: seq<Subscription>, id: string)
    requires MergeInv(m) && id in m.reusable && forall j | 0 <= j < |subs| && subs[j].enabled :: subs[j].id != id
    ensures var m' := MergeAll(m, subs);
            && MergeInv(m') && id in m'.reusable && m'.reusable[id] == m.reusable[id]
            && m'.info[m.reusable[id]] == m.info[m.reusable[id]]
  {
    if subs != [] {
      var n := |subs| - 1;
      StillReusable(m, subs[..n], id);
      MergeOneFollows(MergeAll(m, subs[..n]), subs[n], |MergeAll(m, subs[..n]).kept|, []);
    }
  }

  /** A subscription's last source is the one to take over. */
  lemma {:induction false} ReusableIsLast(sources: seq<SourceId>, info: map<SourceId, SourceInfo>, k: nat, id: string)
    requires (forall x | x in sources :: x in info) && k < |sources| && id != "" && HasId(info, sources[k], id)
    requires forall j | k < j < |sources| :: !HasId(info, sources[j], id)
    ensures id in Reusable(sources, info) && Reusable(sources, info)[id] == sources[k]
  {
    var n := |sources| - 1;
    if k < n {
      ReusableIsLast(sources[..n], info, k, id);
    }
  }

  /** An enabled subscription keeps the last source of its ID, and with it the rules, if the
      settings are unchanged and no earlier enabled subscription has that ID. */
  lemma UnchangedSubscriptionStays(s: State, subs: seq<Subscription>, i: nat, k: nat)
    requires WellFormed(s) && Distinct(s.sources) && i < |subs| && subs[i].enabled && subs[i].id != ""
    requires k < |s.sources| && HasId(s.info, s.sources[k], subs[i].id)
    requires forall j | k < j < |s.sources| :: !HasId(s.info, s.sources[j], subs[i].id)
    requires s.info[s.sources[k]].settings == subs[i].settings
    requires forall j | 0 <= j < i && subs[j].enabled :: subs[j].id != subs[i].id
    ensures s.sources[k] in ReplaceUrlSources(s, subs).sources
  {
    BeforeMerge(s);
    ReusableIsLast(s.sources, s.info, k, subs[i].id);
    MergeTakesOver(Merge(Files(s.sources, s.info), Reusable(s.sources, s.info), s.info, s.nextId), subs, i);
  }
}
