/** What a verdict means in terms of the sources and their rules, with no index and no scan. */
module FilterVerdicts {
  import opened Options
  import opened FilterRules
  import opened FilterEngine
  import opened FilterService

  /** A domain rule covers its own name and every name below it; a regular expression decides by
      itself. */
  lemma RuleMeaning(re: Regex, rule: Rule, domain: string)
    ensures rule.DomainRule? ==>
              (Matches(re, rule, domain) <==> domain == rule.domain || exists below :: domain == below + "." + rule.domain)
    ensures rule.RegexRule? ==> (Matches(re, rule, domain) <==> re(rule.pattern, domain))
  {
    if rule.DomainRule? {
      var dotted := "." + rule.domain;
      if HasSuffix(domain, dotted) {
        assert domain == domain[..|domain| - |dotted|] + "." + rule.domain;
      }
      forall below | domain == below + "." + rule.domain ensures HasSuffix(domain, dotted) {
        assert domain == below + dotted;
      }
    }
  }

  /** The j-th rule of the i-th source. */
  ghost predicate IsRule(sources: seq<SourceId>, rules: Rules, i: nat, j: nat) {
    i < |sources| && j < |RulesOf(rules, sources[i])|
  }

  ghost predicate RuleMatches(re: Regex, sources: seq<SourceId>, rules: Rules, domain: string, i: nat, j: nat) {
    IsRule(sources, rules, i, j) && Matches(re, RulesOf(rules, sources[i])[j], domain)
  }

  predicate Before(i: nat, j: nat, i': nat, j': nat) {
    i < i' || (i == i' && j < j')
  }

  /** The first matching rule in source order and, within a source, in list order. */
  ghost predicate FirstRule(re: Regex, sources: seq<SourceId>, rules: Rules, domain: string, i: nat, j: nat) {
    RuleMatches(re, sources, rules, domain, i, j)
    && forall i': nat, j': nat | RuleMatches(re, sources, rules, domain, i', j') :: !Before(i', j', i, j)
  }

  /** A first match of a scan is one of every longer scan; otherwise the rest decides. */
  lemma FirstMatchConcat(re: Regex, a: seq<Entry>, b: seq<Entry>, domain: string)
    ensures var m, rest := FirstMatch(re, a, domain), FirstMatch(re, b, domain);
            FirstMatch(re, a + b, domain) ==
              if m.Some? || rest.None? then m
              else Some(Indexed(rest.value.rule, rest.value.source, |a| + rest.value.order))
  {
    FirstMatchFound(re, a, domain);
    FirstMatchFound(re, b, domain);
    hide FirstMatch, Matches, IsFirstMatch;
    var m, rest := FirstMatch(re, a, domain), FirstMatch(re, b, domain);
    FirstOfBoth(re, a, b, domain, m, rest);
    var r := if m.Some? || rest.None? then m else Some(Indexed(rest.value.rule, rest.value.source, |a| + rest.value.order));
    FirstMatchExact(re, a + b, domain, r);
  }

  lemma FirstOfBoth(re: Regex, a: seq<Entry>, b: seq<Entry>, domain: string, m: Option<Indexed>, rest: Option<Indexed>)
    requires IsFirstMatch(re, a, domain, m) && IsFirstMatch(re, b, domain, rest)
    ensures IsFirstMatch(re, a + b, domain,
                         if m.Some? || rest.None? then m else Some(Indexed(rest.value.rule, rest.value.source, |a| + rest.value.order)))
  {
    hide Matches;
    assert forall k | 0 <= k < |a| :: (a + b)[k] == a[k];
    assert forall k | 0 <= k < |b| :: (a + b)[|a| + k] == b[k];
  }

  /** Rules of the sources before the last are those of the shorter list. */
  lemma RulesBefore(re: Regex, sources: seq<SourceId>, rules: Rules, domain: string, i: nat, j: nat)
    requires sources != []
    ensures RuleMatches(re, sources, rules, domain, i, j) <==>
              RuleMatches(re, sources[..|sources| - 1], rules, domain, i, j)
              || (i == |sources| - 1 && j < |RulesOf(rules, sources[i])| && Matches(re, RulesOf(rules, sources[i])[j], domain))
  {
  }

  /** The scan lists the rules of each source in turn, so its first match is the first rule. */
  lemma {:induction false} FirstOfScan(re: Regex, sources: seq<SourceId>, rules: Rules, domain: string) returns (i: nat, j: nat)
    ensures var m := FirstMatch(re, Scan(sources, rules), domain);
            && (m.None? <==> forall i: nat, j: nat :: !RuleMatches(re, sources, rules, domain, i, j))
            && (m.Some? ==> FirstRule(re, sources, rules, domain, i, j)
                            && m.value.source == sources[i] && m.value.rule == RulesOf(rules, sources[i])[j])
  {
    i, j := 0, 0;
    if sources == [] {
      return;
    }
    var n := |sources| - 1;
    var own := Tag(RulesOf(rules, sources[n]), sources[n]);
    i, j := FirstOfScan(re, sources[..n], rules, domain);
    FirstMatchConcat(re, Scan(sources[..n], rules), own, domain);
    FirstMatchFound(re, own, domain);
    forall i': nat, j': nat ensures RuleMatches(re, sources, rules, domain, i', j') <==>
        RuleMatches(re, sources[..n], rules, domain, i', j')
        || (i' == n && j' < |own| && Matches(re, own[j'].rule, domain))
    {
      RulesBefore(re, sources, rules, domain, i', j');
    }
    var last := FirstMatch(re, own, domain);
    if FirstMatch(re, Scan(sources[..n], rules), domain).None? && last.Some? {
      i, j := n, last.value.order;
      assert RuleMatches(re, sources, rules, domain, i, j);
    }
    hide FirstMatch, Scan, Matches;
    if FirstMatch(re, Scan(sources[..n], rules), domain).None? && last.None? {
      assert forall i': nat, j': nat :: !RuleMatches(re, sources, rules, domain, i', j');
    }
  }

  /** Exceptions win: a name is allowed exactly if some exception of some source matches, blocked
      exactly if none does and some block rule matches; the verdict names the first such rule and
      its source, and blames a regular expression exactly if the rule is one. */
  lemma VerdictMeaning(re: Regex, sources: seq<SourceId>, block: Rules, allow: Rules, domain: string) returns (i: nat, j: nat)
    ensures var v := Verdict(re, sources, block, allow, domain);
            var allowed := exists i: nat, j: nat :: RuleMatches(re, sources, allow, domain, i, j);
            var blocked := exists i: nat, j: nat :: RuleMatches(re, sources, block, domain, i, j);
            && (v.Allowed? <==> allowed) && (v.Blocked? <==> !allowed && blocked) && (v.NoMatch? <==> !allowed && !blocked)
            && (v.Allowed? ==> FirstRule(re, sources, allow, domain, i, j)
                               && v == Allowed(RulesOf(allow, sources[i])[j].raw, sources[i]))
            && (v.Blocked? ==> FirstRule(re, sources, block, domain, i, j)
                               && v.rule == RulesOf(block, sources[i])[j].raw && v.source == sources[i]
                               && v.reason == if RulesOf(block, sources[i])[j].RegexRule? then FilteredByRegex else FilteredByBlocklist)
  {
    var a, b := FirstOfScan(re, sources, allow, domain);
    var c, d := FirstOfScan(re, sources, block, domain);
    hide FirstMatch, Scan, RuleMatches;
    if Verdict(re, sources, block, allow, domain).Allowed? {
      i, j := a, b;
    } else {
      i, j := c, d;
    }
  }
}
