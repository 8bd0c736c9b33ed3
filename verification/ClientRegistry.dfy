/** Client profiles found by the longest prefix that contains an address.  Prefixes and
    addresses are bit strings of one family; parsing an ID is an arbitrary function. */
module ClientRegistry {
  import opened Options
  import opened Names

  type Prefix = seq<bool>
  type Parser = string -> Option<Prefix>

  datatype Client = Client(name: string, ids: seq<string>, settings: string, nets: seq<Prefix>)

  datatype Result = Ok | NameMissing | NoIds | BadId | Duplicate | Conflict | NotFound | SaveFailed

  predicate Contains(p: Prefix, address: seq<bool>) {
    p <= address
  }

  /** A prefix contains the addresses that begin with it. */
  lemma ContainsIff(p: Prefix, address: seq<bool>)
    ensures Contains(p, address) <==> exists rest: seq<bool> :: address == p + rest
  {
    if Contains(p, address) {
      assert address == p + address[|p|..];
    }
  }

  /** Two different prefixes of equal length never contain the same address. */
  lemma SameLengthSamePrefix(p: Prefix, q: Prefix, address: seq<bool>)
    requires Contains(p, address) && Contains(q, address) && |p| == |q|
    ensures p == q
  {
  }

  // ----- conflicts -----

  predicate Shares(a: Client, b: Client) {
    exists p :: p in a.nets && p in b.nets
  }

  /** Names are unique and no two clients claim the same prefix. */
  ghost predicate Separate(clients: seq<Client>) {
    forall i, j | 0 <= i < j < |clients| :: clients[i].name != clients[j].name && !Shares(clients[i], clients[j])
  }

  ghost predicate Compiled(c: Client, parse: Parser) {
    && !Blank(c.name) && |c.ids| > 0 && |c.nets| == |c.ids|
    && forall i | 0 <= i < |c.ids| :: parse(c.ids[i]) == Some(c.nets[i])
  }

  ghost predicate AllCompiled(clients: seq<Client>, parse: Parser) {
    forall c | c in clients :: Compiled(c, parse)
  }

  predicate BadIds(c: Client, parse: Parser) {
    exists id :: id in c.ids && parse(id).None?
  }

  function CompileResult(c: Client, parse: Parser): Result {
    if Blank(c.name) then NameMissing else if c.ids == [] then NoIds else if BadIds(c, parse) then BadId else Ok
  }

  /** The profile with the prefixes of its IDs. */
  function Parsed(c: Client, parse: Parser): (r: Client)
    ensures r.name == c.name && r.ids == c.ids && r.settings == c.settings && |r.nets| == |c.ids|
  {
    c.(nets := seq(|c.ids|, i requires 0 <= i < |c.ids| =>
                     match parse(c.ids[i]) case Some(p) => p case None => []))
  }

  predicate HasName(clients: seq<Client>, name: string) {
    exists d :: d in clients && d.name == name
  }

  predicate Clashes(clients: seq<Client>, c: Client) {
    exists d :: d in clients && Shares(d, c)
  }

  /** Parses the IDs of a profile; the error is that of the first ID that does not parse. */
  method Compile(c: Client, parse: Parser) returns (r: Result, compiled: Client)
    ensures r == CompileResult(c, parse)
    ensures r.Ok? ==> compiled == Parsed(c, parse) && Compiled(compiled, parse)
  {
    compiled := c.(nets := []);
    if Blank(c.name) {
      return NameMissing, compiled;
    }
    if c.ids == [] {
      return NoIds, compiled;
    }
    for i := 0 to |c.ids|
      invariant compiled == c.(nets := compiled.nets) && |compiled.nets| == i
      invariant forall j | 0 <= j < i :: parse(c.ids[j]) == Some(compiled.nets[j])
    {
      if parse(c.ids[i]).None? {
        return BadId, compiled;
      }
      compiled := compiled.(nets := compiled.nets + [parse(c.ids[i]).value]);
    }
    r := Ok;
  }

  /** Compares every prefix of the candidate with every prefix of every client. */
  method Conflicts(existing: seq<Client>, candidate: Client) returns (found: bool)
    ensures found <==> Clashes(existing, candidate)
  {
    for i := 0 to |existing|
      invariant forall c | c in existing[..i] :: !Shares(c, candidate)
    {
      assert existing[..i + 1] == existing[..i] + [existing[i]];
      var nets := existing[i].nets;
      for j := 0 to |nets|
        invariant forall p | p in nets[..j] :: p !in candidate.nets
      {
        if nets[j] in candidate.nets {
          assert Shares(existing[i], candidate);
          return true;
        }
      }
    }
    found := false;
  }

  // ----- finding -----

  ghost predicate Claims(c: Client, p: Prefix, address: seq<bool>) {
    p in c.nets && Contains(p, address)
  }

  /** r owns the longest of all prefixes that contain the address; None if there is none. */
  ghost predicate Owner(clients: seq<Client>, address: seq<bool>, r: Option<Client>) {
    match r
    case None => forall c, p | c in clients :: !Claims(c, p, address)
    case Some(best) =>
      best in clients
      && exists longest: Prefix :: Claims(best, longest, address)
           && forall c, p | c in clients && Claims(c, p, address) :: |p| <= |longest| && (|p| == |longest| ==> c == best)
  }

  /** The owner is unique and does not depend on the order of registration. */
  lemma OwnerUnique(clients: seq<Client>, others: seq<Client>, address: seq<bool>, r: Option<Client>, s: Option<Client>)
    requires forall c :: c in clients <==> c in others
    requires Owner(clients, address, r) && Owner(others, address, s)
    ensures r == s
  {
  }

  class Registry {
    var clients: seq<Client>
    const parse: Parser

    ghost predicate Valid()
      reads this
    {
      Separate(clients) && AllCompiled(clients, parse)
    }

    constructor (parse: Parser)
      ensures Valid() && clients == [] && this.parse == parse
    {
      this.parse := parse;
      clients := [];
    }

    /** Longest-prefix match over all clients and all their prefixes. */
    method Find(address: Option<seq<bool>>) returns (r: Option<Client>)
      requires Valid()
      ensures address.None? ==> r.None?
      ensures address.Some? ==> Owner(clients, address.value, r)
    {
      if address.None? {
        return None;
      }
      hide Contains, Separate, AllCompiled;
      var a := address.value;
      r := None;
      var bits: int := -1;
      ghost var longest: Prefix := [];
      for i := 0 to |clients|
        invariant r.None? ==> bits == -1
        invariant r.Some? ==> r.value in clients && Claims(r.value, longest, a) && bits == |longest|
        invariant forall c, p | c in clients[..i] && Claims(c, p, a) :: |p| <= bits
      {
        assert clients[..i + 1] == clients[..i] + [clients[i]];
        var better, found := LongerPrefix(clients[i].nets, a, bits);
        if better {
          r, bits, longest := Some(clients[i]), |found|, found;
        }
      }
      assert clients[..|clients|] == clients;
      if r.Some? {
        LongestOwns(clients, a, r.value, longest);
      }
    }

    /** The longest of the prefixes that contain the address, if it beats the best so far. */
    method LongerPrefix(nets: seq<Prefix>, a: seq<bool>, bits: int) returns (better: bool, found: Prefix)
      ensures better ==> found in nets && Contains(found, a) && |found| > bits
      ensures forall p | p in nets && Contains(p, a) :: |p| <= if better then |found| else bits
    {
      better, found := false, [];
      for j := 0 to |nets|
        invariant better ==> found in nets && Contains(found, a) && |found| > bits
        invariant forall p | p in nets[..j] && Contains(p, a) :: |p| <= if better then |found| else bits
      {
        if Contains(nets[j], a) && |nets[j]| > (if better then |found| else bits) {
          better, found := true, nets[j];
        }
      }
    }

    // ----- changing the registry; saved says whether persisting succeeded -----

    /** Builds the whole registry anew; the first item that fails decides the error. */
    method Replace(items: seq<Client>, saved: bool) returns (r: Result)
      requires Valid()
      modifies this
      ensures Valid()
      ensures r == ReplaceResult(items, parse, saved)
      ensures clients == if r.Ok? then ParsedAll(items, parse) else old(clients)
    {
      hide FirstError;
      var proposed: seq<Client> := [];
      FirstErrorNone(parse);
      for i := 0 to |items|
        modifies {}
        invariant Separate(proposed) && AllCompiled(proposed, parse) && proposed == ParsedAll(items[..i], parse)
        invariant FirstError(items[..i], parse).Ok?
      {
        assert items[..i + 1] == items[..i] + [items[i]];
        FirstErrorSnoc(items[..i], items[i], parse);
        FirstErrorStays(items, i + 1, parse);
        if HasName(proposed, items[i].name) {
          return Duplicate;
        }
        var status, candidate := Compile(items[i], parse);
        if !status.Ok? {
          return status;
        }
        var clash := Conflicts(proposed, candidate);
        if clash {
          return Conflict;
        }
        AppendSeparate(proposed, candidate);
        proposed := proposed + [candidate];
      }
      assert items[..|items|] == items;
      if !saved {
        return SaveFailed;
      }
      clients := proposed;
      r := Ok;
    }

    method Add(c: Client, saved: bool) returns (r: Result)
      requires Valid()
      modifies this
      ensures Valid()
      ensures r == AddResult(old(clients), c, parse, saved)
      ensures clients == if r.Ok? then old(clients) + [Parsed(c, parse)] else old(clients)
    {
      if HasName(clients, c.name) {
        return Duplicate;
      }
      var status, candidate := Compile(c, parse);
      if !status.Ok? {
        return status;
      }
      var clash := Conflicts(clients, candidate);
      if clash {
        return Conflict;
      }
      if !saved {
        return SaveFailed;
      }
      AppendSeparate(clients, candidate);
      clients := clients + [candidate];
      r := Ok;
    }

    /** Replaces the client of the same name; its own old prefixes are no conflict. */
    method Update(c: Client, saved: bool) returns (r: Result)
      requires Valid()
      modifies this
      ensures Valid()
      ensures r == UpdateResult(old(clients), c, parse, saved)
      ensures r.Ok? ==> exists i :: 0 <= i < |old(clients)| && old(clients)[i].name == c.name
                                    && clients == old(clients)[i := Parsed(c, parse)]
      ensures !r.Ok? ==> clients == old(clients)
    {
      var status, candidate := Compile(c, parse);
      if !status.Ok? {
        return status;
      }
      for i := 0 to |clients|
        invariant clients == old(clients)
        invariant forall d | d in clients[..i] :: d.name != c.name
      {
        assert clients[..i + 1] == clients[..i] + [clients[i]];
        if clients[i].name == c.name {
          OthersClash(clients, i, c.name, candidate);
          var clash := Conflicts(clients[..i] + clients[i + 1..], candidate);
          if clash {
            return Conflict;
          }
          if !saved {
            return SaveFailed;
          }
          ExchangeSeparate(clients, i, candidate);
          clients := clients[i := candidate];
          return Ok;
        }
      }
      r := NotFound;
    }

    method Delete(name: string, saved: bool) returns (deleted: bool)
      requires Valid()
      modifies this
      ensures Valid()
      ensures deleted <==> saved && HasName(old(clients), name)
      ensures forall c :: c in clients <==> c in old(clients) && !(deleted && c.name == name)
      ensures if deleted then exists i :: 0 <= i < |old(clients)| && clients == old(clients)[..i] + old(clients)[i + 1..]
              else clients == old(clients)
    {
      for i := 0 to |clients|
        invariant clients == old(clients)
        invariant forall d | d in clients[..i] :: d.name != name
      {
        assert clients[..i + 1] == clients[..i] + [clients[i]];
        if clients[i].name == name {
          if !saved {
            return false;
          }
          clients := clients[..i] + clients[i + 1..];
          return true;
        }
      }
      deleted := false;
    }
  }

  // ----- which error comes first -----

  /** Why a profile cannot join these clients. */
  function JoinResult(clients: seq<Client>, c: Client, parse: Parser): Result {
    if HasName(clients, c.name) then Duplicate
    else if !CompileResult(c, parse).Ok? then CompileResult(c, parse)
    else if Clashes(clients, Parsed(c, parse)) then Conflict else Ok
  }

  function AddResult(clients: seq<Client>, c: Client, parse: Parser, saved: bool): Result {
    if !JoinResult(clients, c, parse).Ok? then JoinResult(clients, c, parse) else if saved then Ok else SaveFailed
  }

  function UpdateResult(clients: seq<Client>, c: Client, parse: Parser, saved: bool): Result {
    if !CompileResult(c, parse).Ok? then CompileResult(c, parse)
    else if !HasName(clients, c.name) then NotFound
    else if ClashesOthers(clients, c.name, Parsed(c, parse)) then Conflict
    else if saved then Ok else SaveFailed
  }

  predicate ClashesOthers(clients: seq<Client>, name: string, c: Client) {
    exists d :: d in clients && d.name != name && Shares(d, c)
  }

  /** Some ID of the profile stands for a prefix of this client. */
  ghost predicate ClaimsId(d: Client, c: Client, parse: Parser) {
    exists i :: 0 <= i < |c.ids| && parse(c.ids[i]).Some? && parse(c.ids[i]).value in d.nets
  }

  lemma SharesIff(d: Client, c: Client, parse: Parser)
    requires forall id | id in c.ids :: parse(id).Some?
    ensures Shares(d, Parsed(c, parse)) <==> ClaimsId(d, c, parse)
  {
    var nets := Parsed(c, parse).nets;
    assert forall i | 0 <= i < |c.ids| :: c.ids[i] in c.ids && nets[i] == parse(c.ids[i]).value;
    if Shares(d, Parsed(c, parse)) {
      var p :| p in d.nets && p in nets;
      var i :| 0 <= i < |nets| && nets[i] == p;
    }
    if ClaimsId(d, c, parse) {
      var i :| 0 <= i < |c.ids| && parse(c.ids[i]).Some? && parse(c.ids[i]).value in d.nets;
      assert nets[i] in nets;
    }
  }

  /** Every error of an addition with its exact cause, in the order in which causes win. */
  lemma AddOutcome(clients: seq<Client>, c: Client, parse: Parser, saved: bool)
    ensures var r := AddResult(clients, c, parse, saved);
            if exists d :: d in clients && d.name == c.name then r == Duplicate
            else if Blank(c.name) then r == NameMissing
            else if |c.ids| == 0 then r == NoIds
            else if exists id :: id in c.ids && parse(id).None? then r == BadId
            else if exists d :: d in clients && ClaimsId(d, c, parse) then r == Conflict
            else if !saved then r == SaveFailed else r == Ok
  {
    if forall id | id in c.ids :: parse(id).Some? {
      forall d | d in clients {
        SharesIff(d, c, parse);
      }
    }
  }

  /** The same of an update, whose candidate may keep the prefixes of the client it replaces. */
  lemma UpdateOutcome(clients: seq<Client>, c: Client, parse: Parser, saved: bool)
    ensures var r := UpdateResult(clients, c, parse, saved);
            if Blank(c.name) then r == NameMissing
            else if |c.ids| == 0 then r == NoIds
            else if exists id :: id in c.ids && parse(id).None? then r == BadId
            else if forall d | d in clients :: d.name != c.name then r == NotFound
            else if exists d :: d in clients && d.name != c.name && ClaimsId(d, c, parse) then r == Conflict
            else if !saved then r == SaveFailed else r == Ok
  {
    if forall id | id in c.ids :: parse(id).Some? {
      forall d | d in clients {
        SharesIff(d, c, parse);
      }
    }
  }

  function ParsedAll(items: seq<Client>, parse: Parser): seq<Client> {
    seq(|items|, i requires 0 <= i < |items| => Parsed(items[i], parse))
  }

  /** The error of the first item that cannot join the items before it. */
  function FirstError(items: seq<Client>, parse: Parser): Result {
    if items == [] then Ok
    else
      var n := |items| - 1;
      var earlier := FirstError(items[..n], parse);
      if earlier.Ok? then JoinResult(ParsedAll(items[..n], parse), items[n], parse) else earlier
  }

  function ReplaceResult(items: seq<Client>, parse: Parser, saved: bool): Result {
    if !FirstError(items, parse).Ok? then FirstError(items, parse) else if saved then Ok else SaveFailed
  }

  /** A replacement is accepted if and only if every item compiles, no name is used twice and no
      two items share a prefix. */
  lemma {:induction false} AcceptedIff(items: seq<Client>, parse: Parser)
    ensures FirstError(items, parse).Ok? <==>
            Separate(ParsedAll(items, parse)) && forall i | 0 <= i < |items| :: CompileResult(items[i], parse).Ok?
  {
    if items != [] {
      var n := |items| - 1;
      var before, last := ParsedAll(items[..n], parse), Parsed(items[n], parse);
      AcceptedIff(items[..n], parse);
      assert ParsedAll(items, parse) == before + [last];
      SeparateSnoc(before, last);
      assert forall i | 0 <= i < n :: items[..n][i] == items[i];
    }
  }

  lemma SeparateSnoc(clients: seq<Client>, c: Client)
    ensures Separate(clients + [c]) <==> Separate(clients) && !HasName(clients, c.name) && !Clashes(clients, c)
  {
    var all := clients + [c];
    if Separate(all) {
      forall i | 0 <= i < |clients| ensures clients[i].name != c.name && !Shares(clients[i], c) {
        assert all[i] == clients[i] && all[|clients|] == c;
      }
      forall i, j | 0 <= i < j < |clients| ensures clients[i].name != clients[j].name && !Shares(clients[i], clients[j]) {
        assert all[i] == clients[i] && all[j] == clients[j];
      }
    }
  }

  lemma FirstErrorNone(parse: Parser)
    ensures FirstError([], parse).Ok?
  {
  }

  lemma FirstErrorSnoc(items: seq<Client>, c: Client, parse: Parser)
    ensures FirstError(items + [c], parse) == if FirstError(items, parse).Ok? then JoinResult(ParsedAll(items, parse), c, parse)
                                              else FirstError(items, parse)
    ensures ParsedAll(items + [c], parse) == ParsedAll(items, parse) + [Parsed(c, parse)]
  {
    assert (items + [c])[..|items|] == items;
  }

  lemma {:induction false} FirstErrorStays(items: seq<Client>, n: nat, parse: Parser)
    requires n <= |items|
    ensures !FirstError(items[..n], parse).Ok? ==> FirstError(items, parse) == FirstError(items[..n], parse)
  {
    if n < |items| {
      FirstErrorStays(items[..|items| - 1], n, parse);
      assert items[..|items| - 1][..n] == items[..n];
    } else {
      assert items[..n] == items;
    }
  }

  /** A replacement reports what adding its first bad item to the items before it would. */
  lemma ReplaceOutcome(items: seq<Client>, i: nat, parse: Parser, saved: bool)
    requires i < |items| && Separate(ParsedAll(items[..i], parse))
    requires forall j | 0 <= j < i :: CompileResult(items[j], parse).Ok?
    requires !AddResult(ParsedAll(items[..i], parse), items[i], parse, true).Ok?
    ensures ReplaceResult(items, parse, saved) == AddResult(ParsedAll(items[..i], parse), items[i], parse, true)
  {
    AcceptedIff(items[..i], parse);
    assert items[..i + 1] == items[..i] + [items[i]];
    FirstErrorSnoc(items[..i], items[i], parse);
    FirstErrorStays(items, i + 1, parse);
  }

  /** The clients beside the one of a name are those of other names. */
  lemma OthersClash(clients: seq<Client>, i: nat, name: string, c: Client)
    requires Separate(clients) && i < |clients| && clients[i].name == name
    ensures Clashes(clients[..i] + clients[i + 1..], c) <==> ClashesOthers(clients, name, c)
  {
    var others := clients[..i] + clients[i + 1..];
    forall d ensures d in others <==> d in clients && d.name != name {
      if d in clients && d.name != name {
        var j :| 0 <= j < |clients| && clients[j] == d;
        assert others[if j < i then j else j - 1] == d;
      }
      if d in others {
        var j :| 0 <= j < |others| && others[j] == d;
        assert clients[if j < i then j else j + 1] == d;
      }
    }
  }

  lemma AppendSeparate(clients: seq<Client>, c: Client)
    requires Separate(clients) && forall d | d in clients :: d.name != c.name && !Shares(d, c)
    ensures Separate(clients + [c])
  {
  }

  lemma ExchangeSeparate(clients: seq<Client>, i: nat, c: Client)
    requires Separate(clients) && i < |clients| && c.name == clients[i].name
    requires forall d | d in clients[..i] + clients[i + 1..] :: !Shares(d, c)
    ensures Separate(clients[i := c])
  {
    var all := clients[i := c];
    forall j, k | 0 <= j < k < |all| ensures all[j].name != all[k].name && !Shares(all[j], all[k]) {
      var others := clients[..i] + clients[i + 1..];
      if k == i {
        assert others[j] == all[j];
      } else if j == i {
        assert others[k - 1] == all[k] && !Shares(all[k], c);
      }
    }
  }

  lemma LongestOwns(clients: seq<Client>, address: seq<bool>, best: Client, longest: Prefix)
    requires Separate(clients) && best in clients && Claims(best, longest, address)
    requires forall c, p | c in clients && Claims(c, p, address) :: |p| <= |longest|
    ensures Owner(clients, address, Some(best))
  {
    forall c, p | c in clients && Claims(c, p, address) && |p| == |longest| ensures c == best {
      SameLengthSamePrefix(p, longest, address);
      SameOwner(clients, c, best, p);
    }
  }

  lemma SameOwner(clients: seq<Client>, c: Client, d: Client, p: Prefix)
    requires Separate(clients) && c in clients && d in clients && p in c.nets && p in d.nets
    ensures c == d
  {
  }
}
