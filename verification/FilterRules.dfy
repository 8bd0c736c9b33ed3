/** Filter rules, their naive meaning, and the domain index that replaces the scan.

    A rule set is scanned in source order.  The index keeps, per rule domain, the first
    domain rule of that scan, plus every regular-expression rule; a lookup walks the
    parents of the queried name.  Regular expressions are an arbitrary predicate. */
module FilterRules {
  import opened Options

  /** What RE2 answers for a pattern and a subject; any function will do. */
  type Regex = (string, string) -> bool

  type SourceId = nat

  datatype RawRule =
    | DomainRule(raw: string, domain: string)
    | RegexRule(raw: string, pattern: string)

  /** A rule as the parser produces it: a domain shorter than three characters is not valid. */
  type Rule = r: RawRule | r.DomainRule? ==> 3 <= |r.domain| witness RegexRule("//", "")

  /** One rule of the flattened scan together with the source it came from. */
  datatype Entry = Entry(rule: Rule, source: SourceId)

  datatype Indexed = Indexed(rule: Rule, source: SourceId, order: nat)

  datatype RuleIndex = RuleIndex(domains: map<string, Indexed>, regex: seq<Indexed>)

  // ----- the naive meaning -----

  predicate HasSuffix(s: string, suffix: string) {
    |suffix| <= |s| && s[|s| - |suffix|..] == suffix
  }

  predicate MatchesDomainSuffix(ruleDomain: string, domain: string) {
    domain == ruleDomain || HasSuffix(domain, "." + ruleDomain)
  }

  predicate Matches(re: Regex, rule: Rule, domain: string) {
    match rule
    case RegexRule(_, pattern) => re(pattern, domain)
    case DomainRule(_, ruleDomain) => MatchesDomainSuffix(ruleDomain, domain)
  }

  /** The reference lookup: scan the rules in order and stop at the first match. */
  function FirstMatch(re: Regex, scan: seq<Entry>, domain: string): Option<Indexed> {
    if scan == [] then None
    else
      var n := |scan| - 1;
      var earlier := FirstMatch(re, scan[..n], domain);
      if earlier.Some? then earlier
      else if Matches(re, scan[n].rule, domain) then Some(Indexed(scan[n].rule, scan[n].source, n))
      else None
  }

  /** r is a first match of the scan. */
  ghost predicate IsFirstMatch(re: Regex, scan: seq<Entry>, domain: string, r: Option<Indexed>) {
    match r
    case None => forall i | 0 <= i < |scan| :: !Matches(re, scan[i].rule, domain)
    case Some(m) =>
      && IsEntry(scan, m)
      && Matches(re, m.rule, domain)
      && forall i | 0 <= i < m.order :: !Matches(re, scan[i].rule, domain)
  }

  predicate IsEntry(scan: seq<Entry>, m: Indexed) {
    m.order < |scan| && scan[m.order] == Entry(m.rule, m.source)
  }

  /** A scan has exactly one first match, and the reference lookup finds it. */
  lemma {:induction false} FirstMatchExact(re: Regex, scan: seq<Entry>, domain: string, r: Option<Indexed>)
    ensures IsFirstMatch(re, scan, domain, r) <==> r == FirstMatch(re, scan, domain)
  {
    FirstMatchFound(re, scan, domain);
    var m := FirstMatch(re, scan, domain);
    if IsFirstMatch(re, scan, domain, r) && r.Some? && m.Some? {
      assert !(r.value.order < m.value.order) && !(m.value.order < r.value.order);
    }
  }

  lemma {:induction false} FirstMatchFound(re: Regex, scan: seq<Entry>, domain: string)
    ensures IsFirstMatch(re, scan, domain, FirstMatch(re, scan, domain))
  {
    if scan != [] {
      FirstMatchFound(re, scan[..|scan| - 1], domain);
    }
  }

  // ----- the suffix walk -----

  /** Position of the first dot, or the length when there is none. */
  function FirstDot(s: string): (dot: nat)
    ensures dot <= |s|
    ensures dot < |s| ==> s[dot] == '.'
    ensures forall i | 0 <= i < dot :: s[i] != '.'
  {
    if s == [] || s[0] == '.' then 0 else 1 + FirstDot(s[1..])
  }

  /** The candidate after c: what follows the first dot, or the empty name. */
  function Parent(c: string): (p: string)
    ensures |p| < |c| || c == []
  {
    if FirstDot(c) < |c| then c[FirstDot(c) + 1..] else []
  }

  /** The nonempty names visited by the walk that starts at c. */
  function Walk(c: string): seq<string>
    decreases |c|
  {
    if c == [] then [] else [c] + Walk(Parent(c))
  }

  /** The walk visits exactly the nonempty rule domains that match the queried name. */
  lemma {:induction false} WalkVisitsMatches(domain: string, c: string)
    ensures c in Walk(domain) <==> c != [] && MatchesDomainSuffix(c, domain)
    decreases |domain|
  {
    var p := Parent(domain);
    if domain != [] {
      WalkVisitsMatches(p, c);
      assert c in Walk(domain) <==> c == domain || c in Walk(p);
      if c != [] && c != domain {
        ParentKeepsSuffixes(domain, c);
      }
    }
  }

  /** Only the name itself is lost when moving to the parent. */
  lemma ParentKeepsSuffixes(domain: string, c: string)
    requires domain != [] && c != [] && c != domain
    ensures MatchesDomainSuffix(c, domain) <==> MatchesDomainSuffix(c, Parent(domain))
  {
    if HasSuffix(domain, "." + c) {
      SuffixInParent(domain, c);
    }
    if MatchesDomainSuffix(c, Parent(domain)) {
      SuffixFromParent(domain, c);
    }
  }

  lemma SuffixInParent(domain: string, c: string)
    requires domain != [] && c != [] && c != domain && HasSuffix(domain, "." + c)
    ensures MatchesDomainSuffix(c, Parent(domain))
  {
    var dot, p := FirstDot(domain), Parent(domain);
    var at := |domain| - |c| - 1;
    assert domain[at..] == "." + c;
    assert domain[at] == (domain[at..])[0] == '.';
    assert c == domain[at + 1..];
    assert dot <= at;
    if dot < at {
      assert p[|p| - |c| - 1..] == domain[at..];
    }
  }

  lemma SuffixFromParent(domain: string, c: string)
    requires domain != [] && c != [] && MatchesDomainSuffix(c, Parent(domain))
    ensures MatchesDomainSuffix(c, domain)
  {
  }

  // ----- the index -----

  /** The index of a scan, rule by rule: the first rule of a domain wins. */
  function BuildIndex(scan: seq<Entry>): RuleIndex {
    if scan == [] then RuleIndex(map[], [])
    else AddToIndex(BuildIndex(scan[..|scan| - 1]), scan[|scan| - 1], |scan| - 1)
  }

  function AddToIndex(index: RuleIndex, e: Entry, order: nat): RuleIndex {
    var m := Indexed(e.rule, e.source, order);
    if e.rule.RegexRule? then index.(regex := index.regex + [m])
    else if e.rule.domain in index.domains then index
    else index.(domains := index.domains[e.rule.domain := m])
  }

  /** What the index holds: for each rule domain its earliest rule, and every regex rule. */
  ghost predicate Indexes(index: RuleIndex, scan: seq<Entry>) {
    && (forall d | d in index.domains ::
          var m := index.domains[d];
          IsEntry(scan, m) && m.rule.DomainRule? && m.rule.domain == d)
    && (forall i | 0 <= i < |scan| && scan[i].rule.DomainRule? ::
          scan[i].rule.domain in index.domains && index.domains[scan[i].rule.domain].order <= i)
    && (forall m | m in index.regex :: IsEntry(scan, m) && m.rule.RegexRule?)
    && (forall i | 0 <= i < |scan| && scan[i].rule.RegexRule? ::
          Indexed(scan[i].rule, scan[i].source, i) in index.regex)
  }

  lemma AddToIndexIndexes(index: RuleIndex, scan: seq<Entry>, e: Entry)
    requires Indexes(index, scan)
    ensures Indexes(AddToIndex(index, e, |scan|), scan + [e])
  {
    var scan', m := scan + [e], Indexed(e.rule, e.source, |scan|);
    assert scan'[|scan|] == e && forall i | 0 <= i < |scan| :: scan'[i] == scan[i];
    assert forall x | IsEntry(scan, x) :: IsEntry(scan', x);
    assert IsEntry(scan', m);
    var regex := AddToIndex(index, e, |scan|).regex;
    assert forall x | x in index.regex :: x in regex;
    assert e.rule.RegexRule? ==> m in regex;
  }

  lemma {:induction false} BuildIndexIndexes(scan: seq<Entry>)
    ensures Indexes(BuildIndex(scan), scan)
  {
    if scan != [] {
      var n := |scan| - 1;
      BuildIndexIndexes(scan[..n]);
      AddToIndexIndexes(BuildIndex(scan[..n]), scan[..n], scan[n]);
      assert scan[..n] + [scan[n]] == scan;
    }
  }

  /** Extending a scan extends its index from the left. */
  lemma {:induction false} BuildIndexSnoc(scan: seq<Entry>, e: Entry)
    ensures BuildIndex(scan + [e]) == AddToIndex(BuildIndex(scan), e, |scan|)
  {
  }

  // ----- the lookup -----

  /** The lookup: walk the parents of the name, then try every regex rule. */
  method FirstIndexedMatch(re: Regex, domain: string, index: RuleIndex, ghost scan: seq<Entry>)
    returns (first: Option<Indexed>)
    requires Indexes(index, scan)
    ensures first == FirstMatch(re, scan, domain)
  {
    first := WalkDomainIndex(domain, index, scan);
    DomainRulesDone(re, domain, index, scan, first);
    var k := 0;
    while k < |index.regex|
      invariant 0 <= k <= |index.regex|
      invariant first.Some? ==> IsEntry(scan, first.value) && Matches(re, first.value.rule, domain)
      invariant forall i | 0 <= i < |scan| && scan[i].rule.DomainRule? && Matches(re, scan[i].rule, domain) ::
                  NoLater(first, i)
      invariant forall j | 0 <= j < k && Matches(re, index.regex[j].rule, domain) ::
                  NoLater(first, index.regex[j].order)
    {
      var m := index.regex[k];
      assert m in index.regex;
      if Matches(re, m.rule, domain) && (first.None? || m.order < first.value.order) {
        first := Some(m);
      }
      k := k + 1;
    }
    forall i | 0 <= i < |scan| && Matches(re, scan[i].rule, domain)
      ensures NoLater(first, i)
    {
      if scan[i].rule.RegexRule? {
        assert Indexed(scan[i].rule, scan[i].source, i) in index.regex;
      }
    }
    FirstMatchExact(re, scan, domain, first);
  }

  /** The earliest indexed domain rule among the names of the walk. */
  method WalkDomainIndex(domain: string, index: RuleIndex, ghost scan: seq<Entry>) returns (first: Option<Indexed>)
    requires Indexes(index, scan)
    ensures first.Some? ==>
              IsEntry(scan, first.value) && first.value.rule.DomainRule? && first.value.rule.domain in Walk(domain)
    ensures forall d | d in Walk(domain) && d in index.domains :: NoLater(first, index.domains[d].order)
  {
    hide Walk, Parent, Indexes, IsEntry;
    first := None;
    var candidate := domain;
    WalkStep(domain);
    ghost var seen: seq<string> := [];
    while candidate != []
      invariant Walk(domain) == seen + Walk(candidate)
      invariant first.Some? ==>
                  IsEntry(scan, first.value) && first.value.rule.DomainRule? && first.value.rule.domain in seen
      invariant forall d | d in seen && d in index.domains :: NoLater(first, index.domains[d].order)
      decreases |candidate|
    {
      WalkStep(candidate);
      if candidate in index.domains {
        DomainIndexed(index, scan, candidate);
      }
      if candidate in index.domains && (first.None? || index.domains[candidate].order < first.value.order) {
        first := Some(index.domains[candidate]);
      }
      seen := seen + [candidate];
      candidate := Parent(candidate);
    }
    WalkStep([]);
    assert seen == Walk(domain);
  }

  lemma WalkStep(c: string)
    ensures c != [] ==> Walk(c) == [c] + Walk(Parent(c)) && |Parent(c)| < |c|
    ensures Walk([]) == []
  {
  }

  lemma DomainIndexed(index: RuleIndex, scan: seq<Entry>, d: string)
    requires Indexes(index, scan) && d in index.domains
    ensures var m := index.domains[d]; IsEntry(scan, m) && m.rule.DomainRule? && m.rule.domain == d
  {
  }

  ghost predicate NoLater(first: Option<Indexed>, order: nat) {
    first.Some? && first.value.order <= order
  }

  /** After the walk, the best domain match is no later than any matching domain rule. */
  lemma DomainRulesDone(re: Regex, domain: string, index: RuleIndex, scan: seq<Entry>, first: Option<Indexed>)
    requires Indexes(index, scan)
    requires first.Some? ==> first.value.rule.DomainRule? && first.value.rule.domain in Walk(domain)
    requires forall d | d in Walk(domain) && d in index.domains :: NoLater(first, index.domains[d].order)
    ensures first.Some? ==> Matches(re, first.value.rule, domain)
    ensures forall i | 0 <= i < |scan| && scan[i].rule.DomainRule? && Matches(re, scan[i].rule, domain) ::
              NoLater(first, i)
  {
    if first.Some? {
      WalkVisitsMatches(domain, first.value.rule.domain);
    }
    forall i | 0 <= i < |scan| && scan[i].rule.DomainRule? && Matches(re, scan[i].rule, domain)
      ensures NoLater(first, i)
    {
      WalkVisitsMatches(domain, scan[i].rule.domain);
    }
  }

  /** Two scans with the same index have the same first match for every name. */
  lemma SameIndexSameMatch(re: Regex, domain: string, index: RuleIndex, scan: seq<Entry>, scan': seq<Entry>)
    requires Indexes(index, scan) && Indexes(index, scan')
    ensures FirstMatch(re, scan, domain) == FirstMatch(re, scan', domain)
  {
    EarlierInIndex(re, domain, index, scan, scan');
    EarlierInIndex(re, domain, index, scan', scan);
    FirstMatchFound(re, scan, domain);
    FirstMatchFound(re, scan', domain);
  }

  lemma EarlierInIndex(re: Regex, domain: string, index: RuleIndex, scan: seq<Entry>, scan': seq<Entry>)
    requires Indexes(index, scan) && Indexes(index, scan')
    ensures var m, m' := FirstMatch(re, scan, domain), FirstMatch(re, scan', domain);
            m.Some? ==> m'.Some? && IsEntry(scan', m.value) && m'.value.order <= m.value.order
  {
    FirstMatchFound(re, scan, domain);
    FirstMatchFound(re, scan', domain);
    var m := FirstMatch(re, scan, domain);
    if m.Some? {
      MatchIsIndexed(re, domain, index, scan, scan', m.value);
      assert Matches(re, scan'[m.value.order].rule, domain);
    }
  }

  /** The first match of a scan is an entry of every scan with the same index. */
  lemma MatchIsIndexed(re: Regex, domain: string, index: RuleIndex, scan: seq<Entry>, scan': seq<Entry>, m: Indexed)
    requires Indexes(index, scan) && Indexes(index, scan') && IsFirstMatch(re, scan, domain, Some(m))
    ensures IsEntry(scan', m)
  {
  }
}
