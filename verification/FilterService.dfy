/** The engine object: its fields change in place, one locked region per method, and every
    method is the corresponding step of the state machine in FilterEngine. */
module FilterService {
  import opened Options
  import opened Names
  import opened FilterRules
  import opened FilterEngine

  datatype Reason = NoReason | FilteredByBlocklist | FilteredByRegex

  datatype Result =
    | NoMatch
    | Allowed(rule: string, source: SourceId)
    | Blocked(rule: string, source: SourceId, reason: Reason)

  /** A verdict together with the rules behind it. */
  datatype Evaluation = Evaluation(domain: string, result: Result, allow: Option<Indexed>, block: Option<Indexed>, overridden: bool)

  /** Exceptions win over block rules. */
  function Decide(allow: Option<Indexed>, block: Option<Indexed>): Result {
    if allow.Some? then Allowed(allow.value.rule.raw, allow.value.source)
    else if block.Some? then
      Blocked(block.value.rule.raw, block.value.source,
              if block.value.rule.RegexRule? then FilteredByRegex else FilteredByBlocklist)
    else NoMatch
  }

  /** The name that a diagnosis looks up for what was typed. */
  function Clean(raw: string): string {
    Lower(TrimDot(TrimSpace(raw)))
  }

  predicate IsClean(s: string) {
    && (s != "" ==> !IsSpace(s[0]) && !IsSpace(s[|s| - 1]) && s[|s| - 1] != '.')
    && forall i | 0 <= i < |s| :: !('A' <= s[i] <= 'Z')
  }

  /** A name in normal form is explained as it is matched. */
  lemma CleanKeepsNormal(s: string)
    requires IsClean(s)
    ensures Clean(s) == s
  {
    assert Lower(s) == s;
  }

  /** White space around a typed name and one final dot go, and letters are lowered. */
  lemma CleanTrims(left: string, s: string, dot: string, right: string)
    requires Blank(left) && Blank(right) && (dot == "" || dot == ".")
    requires s != "" && !IsSpace(s[0]) && !IsSpace(s[|s| - 1]) && s[|s| - 1] != '.'
    ensures Clean(left + s + dot + right) == Lower(s)
  {
    assert left + s + dot + right == left + (s + dot) + right;
    TrimSpaceAround(left, s + dot, right);
    assert TrimDot(s + dot) == s;
  }

  /** The meaning of a rule set: scan all exceptions, then all block rules, in source order. */
  function Verdict(re: Regex, sources: seq<SourceId>, block: Rules, allow: Rules, domain: string): Result {
    Decide(FirstMatch(re, Scan(sources, allow), domain), FirstMatch(re, Scan(sources, block), domain))
  }

  /** One pass over sources and rules fills one index. */
  method BuildRuleIndex(sources: seq<SourceId>, rules: Rules) returns (index: RuleIndex)
    ensures index == BuildIndex(Scan(sources, rules))
  {
    hide BuildIndex, AddToIndex;
    index := EmptyIndex();
    var order := 0;
    for i := 0 to |sources|
      invariant order == |Scan(sources[..i], rules)|
      invariant index == BuildIndex(Scan(sources[..i], rules))
    {
      assert sources[..i + 1][..i] == sources[..i];
      ghost var before, tagged := Scan(sources[..i], rules), Tag(RulesOf(rules, sources[i]), sources[i]);
      var own := RulesOf(rules, sources[i]);
      assert before + tagged[..0] == before;
      for j := 0 to |own|
        invariant order == |before| + j
        invariant index == BuildIndex(before + tagged[..j])
      {
        assert before + tagged[..j + 1] == before + tagged[..j] + [tagged[j]];
        BuildIndexSnoc(before + tagged[..j], tagged[j]);
        index := AddToIndex(index, Entry(own[j], sources[i]), order);
        order := order + 1;
      }
      assert tagged[..|own|] == tagged;
    }
    assert sources[..|sources|] == sources;
  }

  function EmptyIndex(): (index: RuleIndex)
    ensures index == BuildIndex([])
  {
    RuleIndex(map[], [])
  }

  class Engine {
    const re: Regex
    const digest: Digest

    var sources: seq<SourceId>
    var info: map<SourceId, SourceInfo>
    var block: Rules
    var allow: Rules
    var indexes: Indexes
    var depth: nat
    var dirty: bool
    var changed: bool
    var generation: nat
    var nextId: SourceId
    var allowedTotal: nat
    var blockedTotal: nat

    /** Builds that have left the lock and not been published yet. */
    ghost var builds: multiset<Build>

    /** The rule set whose indexes are installed. */
    ghost var served: Build

    ghost function View(): State
      reads this
    {
      State(sources, info, block, allow, indexes, depth, dirty, changed, generation, builds, nextId)
    }

    /** What the steps need.  That they keep the invariant of FilterEngine is StepInv. */
    ghost predicate Valid()
      reads this
    {
      WellFormed(View())
    }

    ghost predicate Serving()
      reads this
    {
      indexes == Built(served)
    }

    constructor (re: Regex, digest: Digest)
      ensures View() == Empty && Serving() && allowedTotal == blockedTotal == 0
    {
      this.re, this.digest := re, digest;
      sources, info, block, allow := [], map[], map[], map[];
      indexes := Empty.indexes;
      depth, dirty, changed, generation, nextId := 0, false, false, 0, 0;
      allowedTotal, blockedTotal := 0, 0;
      builds := multiset{};
      served := Build(0, [], map[], map[]);
    }

    /** The indexed lookup gives the verdict of the installed rule set, which is the
        current one whenever the indexes are fresh. */
    method Match(domain: string) returns (r: Result)
      requires Serving()
      modifies `allowedTotal, `blockedTotal
      ensures r == Verdict(re, served.sources, served.block, served.allow, domain)
      ensures Fresh(View()) ==> r == Verdict(re, sources, block, allow, domain)
      ensures allowedTotal == old(allowedTotal) + (if r.Allowed? then 1 else 0)
      ensures blockedTotal == old(blockedTotal) + (if r.Blocked? then 1 else 0)
    {
      ghost var now := Capture(View());
      var a := Lookup(domain, indexes.allow, Scan(served.sources, served.allow), Scan(now.sources, now.allow));
      var b := Lookup(domain, indexes.block, Scan(served.sources, served.block), Scan(now.sources, now.block));
      r := Decide(a, b);
      if a.Some? {
        allowedTotal := allowedTotal + 1;
      } else if b.Some? {
        blockedTotal := blockedTotal + 1;
      }
    }

    /** The diagnosis of a name, as typed, agrees with the verdict on its normal form and names
        both first matches. */
    method Explain(raw: string) returns (e: Evaluation)
      requires Serving()
      ensures e.domain == Clean(raw)
      ensures e.result == Verdict(re, served.sources, served.block, served.allow, e.domain)
      ensures Fresh(View()) ==> e.result == Verdict(re, sources, block, allow, e.domain)
      ensures e.allow == FirstMatch(re, Scan(served.sources, served.allow), e.domain)
      ensures e.block == FirstMatch(re, Scan(served.sources, served.block), e.domain)
      ensures e.overridden <==> e.result.Allowed? && e.block.Some?
    {
      hide Scan, BuildIndex, FirstMatch, Clean;
      var domain := Clean(raw);
      ghost var now := Capture(View());
      var a := Lookup(domain, indexes.allow, Scan(served.sources, served.allow), Scan(now.sources, now.allow));
      var b := Lookup(domain, indexes.block, Scan(served.sources, served.block), Scan(now.sources, now.block));
      var result := NoMatch;
      if a.Some? {
        result := Allowed(a.value.rule.raw, a.value.source);
      }
      if b.Some? && a.None? {
        result := Blocked(b.value.rule.raw, b.value.source,
                          if b.value.rule.RegexRule? then FilteredByRegex else FilteredByBlocklist);
      }
      e := Evaluation(domain, result, a, b, a.Some? && b.Some?);
    }

    /** The lookup result is the first match of any scan that has this index. */
    method Lookup(domain: string, index: RuleIndex, ghost scan: seq<Entry>, ghost other: seq<Entry>)
      returns (first: Option<Indexed>)
      requires index == BuildIndex(scan)
      ensures first == FirstMatch(re, scan, domain)
      ensures index == BuildIndex(other) ==> first == FirstMatch(re, other, domain)
    {
      BuildIndexIndexes(scan);
      first := FirstIndexedMatch(re, domain, index, scan);
      if index == BuildIndex(other) {
        BuildIndexIndexes(other);
        ghost var b := FirstMatch(re, other, domain);
        FirstMatchFound(re, scan, domain);
        FirstMatchFound(re, other, domain);
        SameIndexSameMatch(re, domain, index, scan, other);
      }
    }

    method RebuildIndexes()
      modifies `indexes, `served
      ensures View() == Rebuild(old(View())) && Serving()
    {
      var blockIndex := BuildRuleIndex(sources, block);
      var allowIndex := BuildRuleIndex(sources, allow);
      indexes := Indexes(blockIndex, allowIndex);
      served := Capture(View());
    }

    method SetRulesStatus(src: SourceId, loaded: Option<seq<Parsed>>)
      requires Valid()
      modifies this
      ensures View() == SetRules(digest, old(View()), src, loaded)
      ensures old(Serving()) ==> Serving()
    {
      var active := false;
      for i := 0 to |sources|
        invariant active <==> src in sources[..i]
      {
        if sources[i] == src { active := true; }
      }
      if active && loaded.Some? {
        var newBlock := Classify(loaded.value, info[src].settings.allowOnly, false);
        var newAllow := Classify(loaded.value, info[src].settings.allowOnly, true);
        var checksum := digest(newBlock, newAllow);
        if RulesChanged(info[src], |newBlock| + |newAllow|, checksum) {
          SwapRules(src, newBlock, newAllow, checksum);
          SettleIndexes();
        } else {
          info := info[src := info[src].(checksum := checksum, ruleCount := |newBlock|, allowRuleCount := |newAllow|)];
        }
      }
    }

    method SwapRules(src: SourceId, newBlock: seq<Rule>, newAllow: seq<Rule>, checksum: string)
      requires src in info
      modifies `info, `block, `allow, `generation, `changed
      ensures View() == Update(old(View()), src, newBlock, newAllow, checksum)
    {
      RecordUpdate(src, newBlock, newAllow, checksum);
      block := block[src := newBlock];
      allow := allow[src := newAllow];
      generation := generation + 1;
      changed := changed || (info[src].kind == Url && depth > 0);
    }

    /** Keeps the outgoing rules as the newest snapshot and books the incoming ones. */
    method RecordUpdate(src: SourceId, newBlock: seq<Rule>, newAllow: seq<Rule>, checksum: string)
      requires src in info
      modifies `info
      ensures info == Update(old(View()), src, newBlock, newAllow, checksum).info
      ensures src in info && info[src].kind == old(info)[src].kind
    {
      var own := info[src];
      if own.ruleCount + own.allowRuleCount > 0 {
        own := own.(history := Remember(own.history, Snapshot(RulesOf(block, src), RulesOf(allow, src), own.checksum)));
      }
      info := info[src := own.(checksum := checksum, ruleCount := |newBlock|, allowRuleCount := |newAllow|)];
    }

    method SettleIndexes()
      modifies `dirty, `indexes, `served
      ensures View() == Settle(old(View()))
      ensures Serving() || (indexes == old(indexes) && served == old(served))
    {
      if depth > 0 {
        dirty := true;
      } else {
        RebuildIndexes();
      }
    }

    method BeginRuleUpdateBatch()
      requires Valid()
      modifies `depth
      ensures View() == BeginBatch(old(View()))
    {
      depth := depth + 1;
    }

    /** Closes a batch; a captured build is to be finished with PublishBuild. */
    method EndRuleUpdateBatch() returns (build: Option<Build>, notify: bool)
      requires Valid()
      modifies `depth, `dirty, `changed, `builds
      ensures View() == EndBatch(old(View()))
      ensures build == if old(depth) == 1 && old(dirty) then Some(Capture(old(View()))) else None
      ensures notify == (old(depth) == 1 && old(changed))
    {
      build, notify := None, false;
      if depth == 0 {
        return;
      }
      depth := depth - 1;
      if depth > 0 {
        return;
      }
      if dirty {
        build := Some(Build(generation, sources, block, allow));
        builds := builds + multiset{build.value};
      }
      notify := changed;
      dirty, changed := false, false;
    }

    /** The index build runs without the lock; its result counts only at its generation. */
    method PublishBuild(build: Build)
      requires Valid() && build in builds
      modifies `indexes, `builds, `served
      ensures View() == Publish(old(View()), build)
      ensures old(Serving()) ==> Serving()
    {
      var blockIndex := BuildRuleIndex(build.sources, build.block);
      var allowIndex := BuildRuleIndex(build.sources, build.allow);
      builds := builds - multiset{build};
      if generation == build.generation {
        indexes := Indexes(blockIndex, allowIndex);
        served := build;
      }
    }

    method RegisterSource(kind: Kind, id: string, settings: Settings) returns (src: SourceId)
      requires Valid()
      modifies `sources, `info, `nextId
      ensures View() == AddSource(old(View()), kind, id, settings) && src == old(nextId)
    {
      src := nextId;
      info := info[src := SourceInfo(kind, id, settings, "", 0, 0, [])];
      sources := sources + [src];
      nextId := nextId + 1;
    }

    method ReplaceUrlSources(subs: seq<Subscription>)
      requires Valid()
      modifies this
      ensures Serving() && View() == FilterEngine.ReplaceUrlSources(old(View()), subs)
    {
      hide Scan, BuildIndex, MergeAll, Files, Reusable, Dropped;
      var m := CollectReusable();
      m := MergeSubscriptions(m, subs);
      var dropped := Dropped(sources, info, m.kept);
      block := block - dropped;
      allow := allow - dropped;
      sources, info, nextId := m.kept, m.info, m.nextId;
      generation := generation + 1;
      RebuildIndexes();
    }

    /** File sources are kept; subscriptions with an ID may be taken over. */
    method CollectReusable() returns (m: Merge)
      requires Valid()
      ensures m == Merge(Files(sources, info), Reusable(sources, info), info, nextId)
    {
      var kept, reusable := [], map[];
      for i := 0 to |sources|
        invariant kept == Files(sources[..i], info)
        invariant reusable == Reusable(sources[..i], info)
      {
        assert sources[..i + 1][..i] == sources[..i];
        var src := sources[i];
        if info[src].kind == Url {
          if info[src].id != "" {
            reusable := reusable[info[src].id := src];
          }
        } else {
          kept := kept + [src];
        }
      }
      assert sources[..|sources|] == sources;
      m := Merge(kept, reusable, info, nextId);
    }

    method MergeSubscriptions(m0: Merge, subs: seq<Subscription>) returns (m: Merge)
      requires forall id | id in m0.reusable :: m0.reusable[id] in m0.info
      ensures m == MergeAll(m0, subs)
    {
      m := m0;
      for i := 0 to |subs|
        invariant m == MergeAll(m0, subs[..i])
      {
        assert subs[..i + 1][..i] == subs[..i];
        m := MergeOne(m, subs[i]);
      }
      assert subs[..|subs|] == subs;
    }

    /** Restores the newest snapshot of the first subscription with this ID, if it has one. */
    method RollbackSource(id: string) returns (ok: bool)
      requires Valid()
      modifies this
      ensures View() == Rollback(digest, old(View()), id)
      ensures old(Serving()) ==> Serving()
      ensures ok <==> HasHistory(old(View()), id)
      ensures !ok ==> View() == old(View())
    {
      hide BuildIndex, Scan, RulesOf, Restored, Restore, FindUrl, IndexesOf;
      var i := FindUrlSource(id);
      ok := i < |sources| && info[sources[i]].history != [];
      if ok {
        RestoreNewest(sources[i]);
      }
    }

    /** Position of the first subscription with this ID. */
    method FindUrlSource(id: string) returns (i: nat)
      requires WellFormed(View())
      ensures i <= |sources| && FindUrl(sources, info, id) == if i < |sources| then Some(sources[i]) else None
    {
      i := 0;
      while i < |sources| && !(info[sources[i]].kind == Url && info[sources[i]].id == id)
        invariant i <= |sources| && FindUrl(sources, info, id) == FindUrl(sources[i..], info, id)
      {
        assert sources[i..][1..] == sources[i + 1..];
        i := i + 1;
      }
    }

    method RestoreNewest(src: SourceId)
      requires src in info && info[src].history != []
      modifies this
      ensures View() == Restore(digest, old(View()), src)
      ensures Serving()
    {
      RestoreRules(src);
      RebuildIndexes();
    }

    method RestoreRules(src: SourceId)
      requires src in info && info[src].history != []
      modifies `info, `block, `allow, `generation
      ensures View() == Restored(digest, old(View()), src)
    {
      var own := info[src];
      var last := |own.history| - 1;
      var kept := own.history[last];
      var newBlock := RestoredBlock(kept, own.settings.allowOnly);
      var newAllow := RestoredAllow(kept, own.settings.allowOnly);
      var checksum := kept.checksum;
      if own.settings.allowOnly && |kept.block| > 0 {
        checksum := digest(newBlock, newAllow);
      }
      info := info[src := own.(history := own.history[..last], checksum := checksum,
                               ruleCount := |newBlock|, allowRuleCount := |newAllow|)];
      block := block[src := newBlock];
      allow := allow[src := newAllow];
      generation := generation + 1;
    }
  }
}
