/** Typed rewrite rules and the lookup of the most specific ones.  Client addresses and their
    subnets are bit strings; parsing and validating values is left abstract. */
module RewriteRules {
  import opened Options

  datatype Kind = A | Aaaa | Cname | Ptr | Mx | Txt | Srv | NxDomain | Refused | NoError

  datatype Rewrite = Rewrite(domain: string, kind: Kind, value: string, scopes: seq<seq<bool>>)

  /** The rule's name without a leading wildcard label. */
  function Base(rw: Rewrite): string {
    if "*." <= rw.domain then rw.domain[2..] else rw.domain
  }

  predicate IsSuffix(suffix: string, s: string) {
    |suffix| <= |s| && s[|s| - |suffix|..] == suffix
  }

  /** A plain rule covers its name and everything below it, a wildcard rule only what is below. */
  predicate Covers(rw: Rewrite, domain: string) {
    if domain == Base(rw) then !("*." <= rw.domain) else IsSuffix("." + Base(rw), domain)
  }

  /** Below a name are the names that end in a dot and that name. */
  ghost predicate IsBelow(domain: string, base: string) {
    exists labels: string :: domain == labels + "." + base
  }

  /** A plain rule covers its own name and every name below it; a wildcard rule only the latter. */
  lemma CoversIff(rw: Rewrite, base: string, wildcard: bool, domain: string)
    requires !("*." <= base) && rw.domain == if wildcard then "*." + base else base
    ensures Covers(rw, domain) <==> (!wildcard && domain == base) || IsBelow(domain, base)
  {
    assert Base(rw) == base;
    var dotted := "." + base;
    if IsSuffix(dotted, domain) {
      var labels := domain[..|domain| - |dotted|];
      assert domain == labels + "." + base;
    }
    if IsBelow(domain, base) {
      var labels: string :| domain == labels + "." + base;
      assert |domain| > |base| && domain[|labels|..] == dotted;
    }
  }

  /** The longest scope that contains the address, -1 for none. */
  function Longest(scopes: seq<seq<bool>>, address: seq<bool>): int {
    if scopes == [] then -1
    else
      var rest, last := Longest(scopes[..|scopes| - 1], address), scopes[|scopes| - 1];
      if last <= address && |last| > rest then |last| else rest
  }

  /** How specific a rule is for a client; -1 if it does not apply.  An unrestricted rule ranks
      with an explicit scope of length 0.  No client: scopes are ignored. */
  function Scope(rw: Rewrite, client: Option<Option<seq<bool>>>): int {
    match client
    case None => 0
    case Some(address) =>
      if rw.scopes == [] then 0
      else match address case None => -1 case Some(a) => Longest(rw.scopes, a)
  }

  predicate Applies(rw: Rewrite, domain: string, client: Option<Option<seq<bool>>>) {
    Covers(rw, domain) && Scope(rw, client) >= 0
  }

  /** First the length of the matching name decides, then the length of the matching scope. */
  predicate Below(d: int, s: int, d': int, s': int) {
    d < d' || (d == d' && s < s')
  }

  function Ranked(items: seq<Rewrite>, domain: string, client: Option<Option<seq<bool>>>, d: int, s: int): seq<Rewrite> {
    if items == [] then []
    else
      var last := items[|items| - 1];
      Ranked(items[..|items| - 1], domain, client, d, s)
      + if Applies(last, domain, client) && |Base(last)| == d && Scope(last, client) == s then [last] else []
  }

  lemma RankedSnoc(items: seq<Rewrite>, rw: Rewrite, domain: string, client: Option<Option<seq<bool>>>, d: int, s: int)
    ensures Ranked(items + [rw], domain, client, d, s)
            == Ranked(items, domain, client, d, s)
               + if Applies(rw, domain, client) && |Base(rw)| == d && Scope(rw, client) == s then [rw] else []
  {
  }

  ghost predicate Bounded(items: seq<Rewrite>, domain: string, client: Option<Option<seq<bool>>>, d: int, s: int) {
    forall rw | rw in items && Applies(rw, domain, client) :: !Below(d, s, |Base(rw)|, Scope(rw, client))
  }

  lemma {:induction false} NoneRanked(items: seq<Rewrite>, domain: string, client: Option<Option<seq<bool>>>, d: int, s: int, d': int, s': int)
    requires Bounded(items, domain, client, d, s) && Below(d, s, d', s')
    ensures Ranked(items, domain, client, d', s') == []
  {
    if items != [] {
      var n := |items| - 1;
      assert items[n] in items;
      assert Bounded(items[..n], domain, client, d, s) by {
        forall rw | rw in items[..n] ensures rw in items {
        }
      }
      NoneRanked(items[..n], domain, client, d, s, d', s');
    }
  }

  lemma {:induction false} RankedMembers(items: seq<Rewrite>, domain: string, client: Option<Option<seq<bool>>>, d: int, s: int)
    ensures forall rw :: rw in Ranked(items, domain, client, d, s) <==>
                         rw in items && Applies(rw, domain, client) && |Base(rw)| == d && Scope(rw, client) == s
  {
    if items != [] {
      RankedMembers(items[..|items| - 1], domain, client, d, s);
    }
  }

  /** best is the length of some scope that contains the address, and none that does is longer;
      it is -1 exactly if no scope contains it. */
  ghost predicate IsLongest(scopes: seq<seq<bool>>, address: seq<bool>, best: int) {
    && (forall s | s in scopes && s <= address :: |s| <= best)
    && (best == -1 || exists s :: s in scopes && s <= address && |s| == best)
  }

  lemma {:induction false} LongestIsMaximum(scopes: seq<seq<bool>>, address: seq<bool>, best: int)
    ensures IsLongest(scopes, address, best) <==> best == Longest(scopes, address)
  {
    LongestFound(scopes, address);
  }

  lemma {:induction false} LongestFound(scopes: seq<seq<bool>>, address: seq<bool>)
    ensures IsLongest(scopes, address, Longest(scopes, address))
  {
    if scopes != [] {
      var n := |scopes| - 1;
      LongestFound(scopes[..n], address);
      assert scopes == scopes[..n] + [scopes[n]];
    }
  }

  /** A rule applies where it covers the name and, for a known client, is unrestricted or has a scope
      with the client's address; it ranks by the longest such scope. */
  lemma AppliesIff(rw: Rewrite, domain: string, client: Option<Option<seq<bool>>>)
    ensures client.None? || rw.scopes == [] ==> Scope(rw, client) == 0
    ensures client.Some? && client.value.Some? && rw.scopes != [] ==> IsLongest(rw.scopes, client.value.value, Scope(rw, client))
    ensures Applies(rw, domain, client) <==>
              && Covers(rw, domain)
              && (client.None? || rw.scopes == []
                  || (client.value.Some? && exists s :: s in rw.scopes && s <= client.value.value))
  {
    hide Covers, Longest;
    if client.Some? && client.value.Some? {
      LongestFound(rw.scopes, client.value.value);
    }
  }

  method LongestScope(scopes: seq<seq<bool>>, address: seq<bool>) returns (best: int)
    ensures IsLongest(scopes, address, best) && best == Longest(scopes, address)
  {
    best := -1;
    for i := 0 to |scopes|
      invariant best == Longest(scopes[..i], address)
    {
      assert scopes[..i + 1][..i] == scopes[..i];
      if scopes[i] <= address && |scopes[i]| > best {
        best := |scopes[i]|;
      }
    }
    assert scopes[..|scopes|] == scopes;
    LongestIsMaximum(scopes, address, best);
  }

  /** One pass that restarts whenever a more specific rule turns up.  The result is every
      applicable rule of the highest rank, in order. */
  method Lookup(items: seq<Rewrite>, domain: string, client: Option<Option<seq<bool>>>)
    returns (out: seq<Rewrite>, ghost d: int, ghost s: int)
    ensures Bounded(items, domain, client, d, s) && out == Ranked(items, domain, client, d, s)
    ensures out == [] <==> forall rw | rw in items :: !Applies(rw, domain, client)
    ensures forall rw | rw in items && Applies(rw, domain, client) ::
              |Base(rw)| < d || (|Base(rw)| == d && Scope(rw, client) <= s)
    ensures forall rw :: rw in out <==> rw in items && Applies(rw, domain, client) && |Base(rw)| == d && Scope(rw, client) == s
  {
    hide Ranked, Covers;
    var bestDomain: int, bestScope: int := -1, -1;
    out := [];
    RankedNone(domain, client, -1, -1);
    for i := 0 to |items|
      invariant Bounded(items[..i], domain, client, bestDomain, bestScope)
      invariant out == Ranked(items[..i], domain, client, bestDomain, bestScope)
      invariant bestDomain < 0 ==> bestScope == -1 && forall rw | rw in items[..i] :: !Applies(rw, domain, client)
      invariant bestDomain >= 0 ==> out != []
    {
      var rw := items[i];
      assert items[..i + 1] == items[..i] + [rw];
      if !Covers(rw, domain) {
        RankedSnoc(items[..i], rw, domain, client, bestDomain, bestScope);
        continue;
      }
      var scope := 0;
      if client.Some? && rw.scopes != [] {
        if client.value.None? {
          scope := -1;
        } else {
          scope := LongestScope(rw.scopes, client.value.value);
        }
      }
      if scope < 0 || |Base(rw)| < bestDomain || (|Base(rw)| == bestDomain && scope < bestScope) {
        RankedSnoc(items[..i], rw, domain, client, bestDomain, bestScope);
        continue;
      }
      if |Base(rw)| > bestDomain || scope > bestScope {
        NoneRanked(items[..i], domain, client, bestDomain, bestScope, |Base(rw)|, scope);
        out, bestDomain, bestScope := [], |Base(rw)|, scope;
      }
      RankedSnoc(items[..i], rw, domain, client, bestDomain, bestScope);
      out := out + [rw];
    }
    assert items[..|items|] == items;
    d, s := bestDomain, bestScope;
    RankedMembers(items, domain, client, d, s);
    assert out != [] ==> out[0] in out;
  }

  lemma RankedNone(domain: string, client: Option<Option<seq<bool>>>, d: int, s: int)
    ensures Ranked([], domain, client, d, s) == []
  {
  }

  /** All rules of the result stand at one name: the longest that covers the domain. */
  lemma SameRankSameName(a: Rewrite, b: Rewrite, domain: string)
    requires Covers(a, domain) && Covers(b, domain) && |Base(a)| == |Base(b)|
    ensures Base(a) == Base(b)
  {
    forall rw | rw == a || rw == b ensures Base(rw) == domain[|domain| - |Base(rw)|..] {
      if domain != Base(rw) {
        var dotted := "." + Base(rw);
        assert dotted[1..] == domain[|domain| - |dotted|..][1..];
      }
    }
  }
}
