/** The resolution pipeline around CNAME chasing.  Rewrites and safe search may redirect a
    name; the target then goes through the whole pipeline again. */
module CnameChase {
  import opened Options
  import opened Names
  import opened RewriteRules

  const MAX_CHAIN_DEPTH: nat := 8

  // ----- names -----

  function Normalize(name: string): string {
    Lower(TrimDot(name))
  }

  /** Whether a name ends in an odd number of backslashes. */
  predicate EndsEscaping(s: string) {
    s != "" && s[|s| - 1] == '\\' && !EndsEscaping(s[..|s| - 1])
  }

  /** A final dot makes a name fully qualified unless it is escaped. */
  predicate IsFqdn(s: string) {
    EndsWithDot(s) && !EndsEscaping(s[..|s| - 1])
  }

  function Backslashes(n: nat): (s: string)
    ensures |s| == n
  {
    seq(n, _ => '\\')
  }

  /** The final dot counts exactly if an even number of backslashes stands before it. */
  lemma FqdnParity(head: string, n: nat)
    requires head == "" || head[|head| - 1] != '\\'
    ensures IsFqdn(head + Backslashes(n) + ".") <==> n % 2 == 0
    ensures IsFqdn(head) ==> head != "" && head[|head| - 1] == '.'
  {
    EscapingParity(head, n);
    assert (head + Backslashes(n) + ".")[..|head| + n] == head + Backslashes(n);
  }

  lemma {:induction false} EscapingParity(head: string, n: nat)
    requires head == "" || head[|head| - 1] != '\\'
    ensures EndsEscaping(head + Backslashes(n)) <==> n % 2 == 1
  {
    var s := head + Backslashes(n);
    if n > 0 {
      EscapingParity(head, n - 1);
      assert s[..|s| - 1] == head + Backslashes(n - 1);
    } else {
      assert s == head;
    }
  }

  function Fqdn(s: string): string {
    if IsFqdn(s) then s else s + "."
  }

  predicate EscapedDot(s: string) {
    EndsWithDot(s) && !IsFqdn(s)
  }

  /** Qualifying a name keeps its normal form, unless its final dot is escaped. */
  lemma NormalizeFqdn(s: string)
    ensures Normalize(Fqdn(s)) == Normalize(s) <==> !EscapedDot(s)
  {
  }

  // ----- one pass through the pipeline -----

  datatype QType = QA | QAaaa | QCname | QPtr | QMx | QTxt | QSrv | QAny | QOther

  datatype Rcode = Success | FormatError | ServerFailure | NameError | QueryRefused | OtherRcode(code: nat)

  datatype Content = Alias(target: string) | Data(text: string)

  datatype Record = Record(owner: string, content: Content)

  /** What surrounds the pipeline, as functions of the normalized name. */
  datatype World = World(
    qtype: QType, refuseAny: bool, aaaaDisabled: bool,
    validName: string -> bool,
    rewrites: string -> seq<Rewrite>, builds: Rewrite -> bool,
    magicDns: string -> Option<seq<Content>>, privatePtr: string -> Option<seq<Content>>,
    safeSearch: string -> string,
    filter: string -> Option<(Rcode, seq<Content>)>,
    forward: string -> (Rcode, seq<Record>, string))

  datatype Decision =
    | Redirect(target: string, stage: string)
    | Final(rcode: Rcode, records: seq<Record>, reason: string)

  predicate Chases(q: QType) {
    q == QA || q == QAaaa || q == QCname
  }

  /** The record type a rewrite can answer. */
  predicate Answers(rw: Rewrite, q: QType) {
    match rw.kind
    case A => q == QA
    case Aaaa => q == QAaaa
    case Cname => Chases(q)
    case Ptr => q == QPtr
    case Mx => q == QMx
    case Txt => q == QTxt
    case Srv => q == QSrv
    case _ => false
  }

  function Owned(name: string, contents: seq<Content>): seq<Record> {
    seq(|contents|, i requires 0 <= i < |contents| => Record(name, contents[i]))
  }

  function FirstRcode(entries: seq<Rewrite>): Option<Rcode> {
    if entries == [] then None
    else match entries[0].kind
      case NxDomain => Some(NameError)
      case Refused => Some(QueryRefused)
      case NoError => Some(Success)
      case _ => FirstRcode(entries[1..])
  }

  function Built(w: World, entries: seq<Rewrite>): seq<Content> {
    if entries == [] then []
    else
      var e := entries[0];
      (if !Answers(e, w.qtype) || !w.builds(e) || (e.kind == Cname && w.qtype != QCname) then []
       else [if e.kind == Cname then Alias(Fqdn(e.value)) else Data(e.value)])
      + Built(w, entries[1..])
  }

  function FirstCname(entries: seq<Rewrite>): Option<string> {
    if entries == [] then None
    else if entries[0].kind == Cname then Some(entries[0].value)
    else FirstCname(entries[1..])
  }

  /** Response codes first, then records, then a CNAME to chase, then an empty answer. */
  function StageRewrites(w: World, name: string): Option<Decision> {
    var entries := w.rewrites(Normalize(name));
    if entries == [] then None
    else if FirstRcode(entries).Some? then Some(Final(FirstRcode(entries).value, [], "Rewrite"))
    else if Built(w, entries) != [] then Some(Final(Success, Owned(name, Built(w, entries)), "Rewrite"))
    else if Chases(w.qtype) && FirstCname(entries).Some? then Some(Redirect(FirstCname(entries).value, "Rewrite"))
    else Some(Final(Success, [], "Rewrite"))
  }

  predicate SetsRcode(e: Rewrite) {
    e.kind.NxDomain? || e.kind.Refused? || e.kind.NoError?
  }

  /** A rewrite answers for this question by itself, without a chase. */
  predicate Direct(w: World, e: Rewrite) {
    SetsRcode(e) || (Answers(e, w.qtype) && w.builds(e) && (e.kind.Cname? ==> w.qtype.QCname?))
  }

  lemma {:induction false} DirectFound(w: World, entries: seq<Rewrite>)
    ensures FirstRcode(entries).Some? || Built(w, entries) != [] <==> exists e :: e in entries && Direct(w, e)
  {
    if entries != [] {
      DirectFound(w, entries[1..]);
      assert entries == [entries[0]] + entries[1..];
      assert Direct(w, entries[0]) ==> FirstRcode(entries).Some? || |Built(w, entries)| > 0;
      assert !Direct(w, entries[0]) ==> Built(w, entries) == Built(w, entries[1..]);
    }
  }

  lemma {:induction false} RcodeFound(entries: seq<Rewrite>)
    ensures FirstRcode(entries).Some? <==> exists e :: e in entries && SetsRcode(e)
  {
    if entries != [] {
      RcodeFound(entries[1..]);
      assert entries == [entries[0]] + entries[1..];
      assert SetsRcode(entries[0]) || FirstRcode(entries) == FirstRcode(entries[1..]);
    }
  }

  lemma {:induction false} CnameFound(entries: seq<Rewrite>)
    ensures FirstCname(entries).Some? <==> exists e :: e in entries && e.kind.Cname?
    ensures FirstCname(entries).Some? ==> exists e :: e in entries && e.kind.Cname? && FirstCname(entries) == Some(e.value)
  {
    if entries != [] && !entries[0].kind.Cname? {
      CnameFound(entries[1..]);
      assert entries == [entries[0]] + entries[1..];
    }
  }

  /** Rewrites redirect a question exactly if it is for an address or a CNAME, some matching
      rewrite is a CNAME and none answers by itself.  Response codes win over records, and any
      match hides the later stages. */
  lemma RewriteRedirectsIff(w: World, name: string)
    ensures var entries := w.rewrites(Normalize(name));
            var d := StageRewrites(w, name);
            && (d.Some? <==> entries != [])
            && (d.Some? && d.value.Redirect? <==>
                  Chases(w.qtype) && (exists e :: e in entries && e.kind.Cname?) && !(exists e :: e in entries && Direct(w, e)))
            && (d.Some? && d.value.Redirect? ==> exists e :: e in entries && e.kind.Cname? && d.value.target == e.value)
            && ((exists e :: e in entries && SetsRcode(e)) ==> d.value.Final? && d.value.records == [])
            && ((exists e :: e in entries && Direct(w, e)) && !(exists e :: e in entries && SetsRcode(e)) ==>
                  d.value.Final? && d.value.rcode == Success && d.value.records != [])
  {
    RcodeFound(w.rewrites(Normalize(name)));
    DirectFound(w, w.rewrites(Normalize(name)));
    CnameFound(w.rewrites(Normalize(name)));
  }

  function StageSafeSearch(w: World, name: string): Option<Decision> {
    var target := w.safeSearch(Normalize(name));
    if target == "" then None
    else if Chases(w.qtype) then Some(Redirect(target, "SafeSearch"))
    else Some(Final(Success, [Record(name, Alias(Fqdn(target)))], "SafeSearch"))
  }

  function StageLocal(w: World, name: string): Option<Decision> {
    var n := Normalize(name);
    if (w.qtype == QA || w.qtype == QAaaa) && w.magicDns(n).Some? then Some(Final(Success, Owned(name, w.magicDns(n).value), "MagicDNS"))
    else if w.qtype == QPtr && w.privatePtr(n).Some? then Some(Final(Success, Owned(name, w.privatePtr(n).value), "PTR"))
    else None
  }

  function StageFilter(w: World, name: string): Decision {
    var n := Normalize(name);
    if w.filter(n).Some? then Final(w.filter(n).value.0, Owned(name, w.filter(n).value.1), "Filtered")
    else var (rcode, records, reason) := w.forward(n); Final(rcode, records, reason)
  }

  function Decide(w: World, name: string): Decision {
    if !w.validName(Normalize(name)) then Final(FormatError, [], "")
    else if w.refuseAny && w.qtype == QAny then Final(QueryRefused, [], "REFUSE_ANY")
    else if w.aaaaDisabled && w.qtype == QAaaa then Final(Success, [], "AAAA_DISABLED")
    else if StageRewrites(w, name).Some? then StageRewrites(w, name).value
    else if StageLocal(w, name).Some? then StageLocal(w, name).value
    else if StageSafeSearch(w, name).Some? then StageSafeSearch(w, name).value
    else StageFilter(w, name)
  }

  /** Spelling does not matter for redirects. */
  lemma DecideNormal(w: World, a: string, b: string)
    requires Normalize(a) == Normalize(b)
    ensures Decide(w, a).Redirect? <==> Decide(w, b).Redirect?
    ensures Decide(w, a).Redirect? ==> Decide(w, a) == Decide(w, b)
  {
    hide Normalize, Fqdn, Built, FirstRcode, FirstCname, Owned;
  }

  // ----- chasing -----

  datatype Outcome = Outcome(rcode: Rcode, records: seq<Record>, looped: bool, reason: string)

  /** The chase fails on a name it has seen or at the depth limit, and says so all the way out. */
  function Resolve(w: World, name: string, depth: nat, path: set<string>): Outcome
    requires depth <= MAX_CHAIN_DEPTH
    decreases MAX_CHAIN_DEPTH - depth
  {
    match Decide(w, name)
    case Final(rcode, records, reason) => Outcome(rcode, records, false, reason)
    case Redirect(target, stage) =>
      var source, next := Normalize(name), Normalize(target);
      if next in path || next == source || depth >= MAX_CHAIN_DEPTH then Outcome(ServerFailure, [], true, "CNAME_LOOP")
      else
        var sub := Resolve(w, Fqdn(target), depth + 1, path + {source});
        Outcome(sub.rcode, [Record(name, Alias(Fqdn(target)))] + sub.records, sub.looped,
                if sub.looped then sub.reason else stage)
  }

  // ----- the names themselves, followed without any loop check -----

  function Next(w: World, name: string): Option<string> {
    match Decide(w, name) case Redirect(target, _) => Some(Fqdn(target)) case _ => None
  }

  function Iter(w: World, start: string, n: nat): Option<string> {
    if n == 0 then Some(start)
    else match Iter(w, start, n - 1) case Some(name) => Next(w, name) case None => None
  }

  lemma IterStep(w: World, start: string, n: nat)
    ensures Iter(w, start, n + 1) == match Iter(w, start, n) case Some(name) => Next(w, name) case None => None
  {
  }

  lemma {:induction false} IterShorter(w: World, start: string, n: nat, k: nat)
    requires k <= n && Iter(w, start, n).Some?
    ensures Iter(w, start, k).Some?
  {
    hide Next;
    if k < n {
      IterShorter(w, start, n - 1, k);
    }
  }

  lemma {:induction false} IterShift(w: World, start: string, a: nat, b: nat, m: nat)
    requires Iter(w, start, a) == Iter(w, start, b)
    ensures Iter(w, start, a + m) == Iter(w, start, b + m)
  {
    hide Iter, Next;
    if m > 0 {
      IterShift(w, start, a, b, m - 1);
      IterStep(w, start, a + m - 1);
      IterStep(w, start, b + m - 1);
    }
  }

  /** Whoever comes back to a name redirects for ever. */
  lemma {:induction false} RevisitForever(w: World, start: string, j: nat, k: nat, n: nat)
    requires j < k && Iter(w, start, k).Some? && Iter(w, start, j).Some?
    requires Normalize(Iter(w, start, j).value) == Normalize(Iter(w, start, k).value)
    ensures Iter(w, start, n).Some?
  {
    hide Iter, Next, Normalize;
    if n <= k {
      IterShorter(w, start, k, n);
    } else {
      SameSuccessor(w, start, j, k);
      IterShift(w, start, k + 1, j + 1, n - (k + 1));
      RevisitForever(w, start, j, k, n - (k - j));
    }
  }

  lemma SameSuccessor(w: World, start: string, j: nat, k: nat)
    requires Iter(w, start, k).Some? && Iter(w, start, j).Some?
    requires Normalize(Iter(w, start, j).value) == Normalize(Iter(w, start, k).value)
    ensures Iter(w, start, j + 1) == Iter(w, start, k + 1)
  {
    hide Iter, Decide, Normalize;
    DecideNormal(w, Iter(w, start, j).value, Iter(w, start, k).value);
    IterStep(w, start, j);
    IterStep(w, start, k);
  }

  // ----- when a chase fails -----

  /** One of the first n names has the normal form p. */
  ghost predicate Visited(w: World, start: string, n: nat, p: string) {
    exists j: nat :: j < n && Iter(w, start, j).Some? && Normalize(Iter(w, start, j).value) == p
  }

  /** The state of a chase: the path holds the normal forms of the names followed so far. */
  ghost predicate Following(w: World, start: string, name: string, depth: nat, path: set<string>) {
    Iter(w, start, depth) == Some(name) && forall p :: p in path <==> Visited(w, start, depth, p)
  }

  lemma VisitedNext(w: World, start: string, name: string, depth: nat, p: string)
    requires Iter(w, start, depth) == Some(name)
    ensures Visited(w, start, depth + 1, p) <==> Visited(w, start, depth, p) || p == Normalize(name)
  {
    hide Iter;
    if Visited(w, start, depth, p) {
      var j: nat :| j < depth && Iter(w, start, j).Some? && Normalize(Iter(w, start, j).value) == p;
      assert Normalize(Iter(w, start, j).value) == p;
    }
    assert Normalize(Iter(w, start, depth).value) == Normalize(name);
  }

  lemma FollowOn(w: World, start: string, name: string, depth: nat, path: set<string>)
    requires Following(w, start, name, depth, path)
    ensures forall p :: p in path + {Normalize(name)} <==> Visited(w, start, depth + 1, p)
  {
    hide Iter, Normalize, Visited;
    forall p ensures p in path + {Normalize(name)} <==> Visited(w, start, depth + 1, p) {
      VisitedNext(w, start, name, depth, p);
    }
  }

  /** A seen target that is spelled plainly means that the names redirect for ever. */
  lemma SeenForever(w: World, start: string, name: string, depth: nat, n: nat)
    requires Iter(w, start, depth) == Some(name) && Decide(w, name).Redirect?
    requires !EscapedDot(Decide(w, name).target) && Visited(w, start, depth + 1, Normalize(Decide(w, name).target))
    ensures Iter(w, start, n).Some?
  {
    hide Decide, Normalize, Fqdn, EscapedDot;
    var target := Decide(w, name).target;
    NormalizeFqdn(target);
    IterStep(w, start, depth);
    var j: nat :| j < depth + 1 && Iter(w, start, j).Some? && Normalize(Iter(w, start, j).value) == Normalize(target);
    RevisitForever(w, start, j, depth + 1, n);
  }

  /** The i-th redirect names a target with an escaped final dot whose normal form, but not the
      name looked up next, is that of an earlier name. */
  ghost predicate FalseAlarm(w: World, start: string, i: nat) {
    Iter(w, start, i).Some? && var d := Decide(w, Iter(w, start, i).value);
    d.Redirect? && EscapedDot(d.target) && Visited(w, start, i + 1, Normalize(d.target))
  }

  ghost predicate FalseAlarmFrom(w: World, start: string, depth: nat) {
    exists i: nat :: depth <= i <= MAX_CHAIN_DEPTH && FalseAlarm(w, start, i)
  }

  /** From a name that does not redirect on, there is neither a ninth redirect nor an alarm. */
  lemma FinalEnds(w: World, start: string, name: string, depth: nat)
    requires Iter(w, start, depth) == Some(name) && !Decide(w, name).Redirect? && depth <= MAX_CHAIN_DEPTH
    ensures Iter(w, start, MAX_CHAIN_DEPTH + 1) == None && !FalseAlarmFrom(w, start, depth)
  {
    hide Decide, Normalize, Visited, EscapedDot;
    IterStep(w, start, depth);
    if Iter(w, start, MAX_CHAIN_DEPTH + 1).Some? {
      IterShorter(w, start, MAX_CHAIN_DEPTH + 1, depth + 1);
    }
    forall i: nat | depth <= i <= MAX_CHAIN_DEPTH ensures !FalseAlarm(w, start, i) {
      if depth < i && Iter(w, start, i).Some? {
        IterShorter(w, start, i, depth + 1);
      }
    }
  }

  lemma {:induction false} LoopedIff(w: World, start: string, name: string, depth: nat, path: set<string>)
    requires depth <= MAX_CHAIN_DEPTH && Following(w, start, name, depth, path)
    ensures var r := Resolve(w, name, depth, path);
            && (r.looped <==> Iter(w, start, MAX_CHAIN_DEPTH + 1).Some? || FalseAlarmFrom(w, start, depth))
            && (r.looped ==> r.rcode == ServerFailure && r.reason == "CNAME_LOOP")
    decreases MAX_CHAIN_DEPTH - depth
  {
    hide Decide, Normalize, Fqdn, Iter, Visited, EscapedDot;
    FollowOn(w, start, name, depth, path);
    IterStep(w, start, depth);
    match Decide(w, name)
    case Final(_, _, _) => FinalEnds(w, start, name, depth);
    case Redirect(target, _) =>
      if Normalize(target) in path + {Normalize(name)} {
        if EscapedDot(target) {
          assert FalseAlarm(w, start, depth);
        } else {
          SeenForever(w, start, name, depth, MAX_CHAIN_DEPTH + 1);
        }
      } else if depth < MAX_CHAIN_DEPTH {
        assert !FalseAlarm(w, start, depth);
        LoopedIff(w, start, Fqdn(target), depth + 1, path + {Normalize(name)});
      }
  }

  /** For every configuration, however cyclic: a query fails with a loop error if and only if the
      first nine names all redirect or a target with an escaped final dot raises a false alarm. */
  lemma LoopIffNineRedirects(w: World, name: string)
    ensures var r := Resolve(w, name, 0, {});
            && (r.looped <==> Iter(w, name, MAX_CHAIN_DEPTH + 1).Some? || FalseAlarmFrom(w, name, 0))
            && (r.looped ==> r.rcode == ServerFailure && r.reason == "CNAME_LOOP")
  {
    LoopedIff(w, name, name, 0, {});
  }

  // ----- the records -----

  /** How many CNAME records the chase itself adds. */
  function Hops(w: World, name: string, depth: nat, path: set<string>): nat
    requires depth <= MAX_CHAIN_DEPTH
    decreases MAX_CHAIN_DEPTH - depth
  {
    match Decide(w, name)
    case Final(_, _, _) => 0
    case Redirect(target, _) =>
      if Normalize(target) in path || Normalize(target) == Normalize(name) || depth >= MAX_CHAIN_DEPTH then 0
      else 1 + Hops(w, Fqdn(target), depth + 1, path + {Normalize(name)})
  }

  /** The added records follow the redirects one by one; then come the records of the name that
      does not redirect, or nothing after a loop. */
  ghost predicate Followed(w: World, start: string, depth: nat, r: Outcome, n: nat) {
    && n <= |r.records| && Iter(w, start, depth + n).Some?
    && HopsFrom(w, start, depth, r.records, n)
    && (if r.looped then |r.records| == n else Answered(w, Iter(w, start, depth + n).value, r, n))
  }

  ghost predicate HopsFrom(w: World, start: string, depth: nat, records: seq<Record>, n: nat)
    decreases n
  {
    n == 0 || (records != [] && IsHop(w, start, depth, records[0]) && HopsFrom(w, start, depth + 1, records[1..], n - 1))
  }

  lemma {:induction false} RecordsFollow(w: World, start: string, name: string, depth: nat, path: set<string>)
    requires depth <= MAX_CHAIN_DEPTH && Iter(w, start, depth) == Some(name)
    ensures Hops(w, name, depth, path) <= MAX_CHAIN_DEPTH - depth
    ensures Followed(w, start, depth, Resolve(w, name, depth, path), Hops(w, name, depth, path))
    decreases MAX_CHAIN_DEPTH - depth
  {
    hide Decide, Normalize, Fqdn, Followed, Iter;
    IterStep(w, start, depth);
    match Decide(w, name)
    case Final(_, _, _) =>
      FollowedNone(w, start, depth, name, Resolve(w, name, depth, path));
    case Redirect(target, _) =>
      if Normalize(target) in path || Normalize(target) == Normalize(name) || depth >= MAX_CHAIN_DEPTH {
        FollowedNone(w, start, depth, name, Resolve(w, name, depth, path));
      } else {
        RecordsFollow(w, start, Fqdn(target), depth + 1, path + {Normalize(name)});
        FollowedOne(w, start, depth, Resolve(w, name, depth, path), Record(name, Alias(Fqdn(target))),
                    Resolve(w, Fqdn(target), depth + 1, path + {Normalize(name)}),
                    Hops(w, Fqdn(target), depth + 1, path + {Normalize(name)}));
      }
  }

  lemma FollowedNone(w: World, start: string, depth: nat, name: string, r: Outcome)
    requires Iter(w, start, depth) == Some(name)
    requires if r.looped then r.records == [] else Answered(w, name, r, 0)
    ensures Followed(w, start, depth, r, 0)
  {
  }

  lemma FollowedOne(w: World, start: string, depth: nat, r: Outcome, record: Record, sub: Outcome, n: nat)
    requires Followed(w, start, depth + 1, sub, n) && IsHop(w, start, depth, record)
    requires r.records == [record] + sub.records && r.looped == sub.looped && r.rcode == sub.rcode
    ensures Followed(w, start, depth, r, n + 1)
  {
    hide Iter, IsHop, Decide;
    assert r.records[1..] == sub.records;
    assert r.records[n + 1..] == sub.records[n..];
  }

  ghost predicate IsHop(w: World, start: string, i: nat, record: Record) {
    && Iter(w, start, i).Some? && Iter(w, start, i + 1).Some?
    && record == Record(Iter(w, start, i).value, Alias(Iter(w, start, i + 1).value))
  }

  ghost predicate Answered(w: World, name: string, r: Outcome, n: nat)
    requires n <= |r.records|
  {
    var d := Decide(w, name);
    d.Final? && d.rcode == r.rcode && d.records == r.records[n..]
  }

  /** Whether the j-th owner was reached by a target with an escaped final dot. */
  ghost predicate Escaped(w: World, records: seq<Record>, j: nat)
    requires 0 < j < |records|
  {
    var d := Decide(w, records[j - 1].owner);
    d.Redirect? && EscapedDot(d.target)
  }

  /** An owner that was reached by a plain target has not been followed before. */
  ghost predicate NewOwners(w: World, records: seq<Record>, n: nat, path: set<string>)
    requires n <= |records|
  {
    forall j | 0 < j < n && !Escaped(w, records, j) ::
      Normalize(records[j].owner) !in path && forall i | 0 <= i < j :: Normalize(records[i].owner) != Normalize(records[j].owner)
  }

  lemma {:induction false} OwnersNew(w: World, name: string, depth: nat, path: set<string>)
    requires depth <= MAX_CHAIN_DEPTH
    ensures var r, n := Resolve(w, name, depth, path), Hops(w, name, depth, path);
            n <= |r.records| && (n > 0 ==> r.records[0].owner == name) && NewOwners(w, r.records, n, path)
    decreases MAX_CHAIN_DEPTH - depth
  {
    hide Decide, Normalize, Fqdn, EscapedDot;
    match Decide(w, name)
    case Final(_, _, _) =>
    case Redirect(target, _) =>
      if !(Normalize(target) in path || Normalize(target) == Normalize(name) || depth >= MAX_CHAIN_DEPTH) {
        var rest := path + {Normalize(name)};
        OwnersNew(w, Fqdn(target), depth + 1, rest);
        NormalizeFqdn(target);
        NewOwner(w, Record(name, Alias(Fqdn(target))), Resolve(w, Fqdn(target), depth + 1, rest).records,
                 Hops(w, Fqdn(target), depth + 1, rest), path);
      }
  }

  lemma NewOwner(w: World, record: Record, records: seq<Record>, n: nat, path: set<string>)
    requires n <= |records| && NewOwners(w, records, n, path + {Normalize(record.owner)})
    requires var d := Decide(w, record.owner);
             d.Redirect? && (n > 0 && !EscapedDot(d.target) ==>
               Normalize(records[0].owner) !in path + {Normalize(record.owner)})
    ensures NewOwners(w, [record] + records, n + 1, path)
  {
    hide Decide, Normalize, EscapedDot;
    var all := [record] + records;
    forall j | 0 < j < n + 1 && !Escaped(w, all, j)
      ensures Normalize(all[j].owner) !in path && forall i | 0 <= i < j :: Normalize(all[i].owner) != Normalize(all[j].owner)
    {
      assert all[j] == records[j - 1];
      if j > 1 {
        assert !Escaped(w, records, j - 1);
        forall i | 0 <= i < j ensures Normalize(all[i].owner) != Normalize(all[j].owner) {
          assert i > 0 ==> all[i] == records[i - 1];
        }
      }
    }
  }

  /** The chain of a whole query: each target is the next owner. */
  ghost predicate Linked(records: seq<Record>, name: string, n: nat)
    requires n <= |records|
  {
    && (n > 0 ==> records[0].owner == name)
    && (forall i | 0 <= i < n :: records[i].content.Alias?)
    && (forall i | 0 <= i && i + 1 < n :: records[i].content.target == records[i + 1].owner)
  }

  lemma {:induction false} HopsLinked(w: World, start: string, name: string, depth: nat, records: seq<Record>, n: nat)
    requires n <= |records| && HopsFrom(w, start, depth, records, n) && Iter(w, start, depth) == Some(name)
    ensures Linked(records, name, n)
    decreases n
  {
    hide Next, Iter;
    if n > 0 {
      HopsLinked(w, start, Iter(w, start, depth + 1).value, depth + 1, records[1..], n - 1);
      forall i | 0 <= i < n ensures records[i].content.Alias? {
        assert i > 0 ==> records[1..][i - 1] == records[i];
      }
      forall i | 0 <= i && i + 1 < n ensures records[i].content.target == records[i + 1].owner {
        assert i > 0 ==> records[1..][i - 1] == records[i];
        assert records[1..][i] == records[i + 1];
      }
    }
  }

  /** For every configuration: an owner can only repeat where a target with an escaped final dot
      led to it. */
  lemma ChainOfQuery(w: World, name: string)
    ensures var r, n := Resolve(w, name, 0, {}), Hops(w, name, 0, {});
            && n <= MAX_CHAIN_DEPTH && n <= |r.records| && Linked(r.records, name, n) && (r.looped ==> |r.records| == n)
            && (forall i, j | 0 <= i < j < n && Normalize(r.records[i].owner) == Normalize(r.records[j].owner) ::
                  Escaped(w, r.records, j))
  {
    hide Resolve, Hops, Normalize, IsHop, Linked, Decide, Fqdn, Escaped;
    RecordsFollow(w, name, name, 0, {});
    HopsLinked(w, name, name, 0, Resolve(w, name, 0, {}).records, Hops(w, name, 0, {}));
    OwnersNew(w, name, 0, {});
  }

  // ----- what an escaped final dot does -----

  /** A name that redirects to itself with an escaped final dot is chased to the depth limit. */
  lemma {:induction false} EscapedTargetRepeats(w: World, name: string, target: string, depth: nat, path: set<string>)
    requires depth <= MAX_CHAIN_DEPTH && EscapedDot(target) && name == Fqdn(target)
    requires Decide(w, name).Redirect? && Decide(w, name).target == target
    requires path <= {Normalize(name)}
    ensures var r := Resolve(w, name, depth, path);
            && Hops(w, name, depth, path) == |r.records| == MAX_CHAIN_DEPTH - depth
            && (forall i | 0 <= i < |r.records| :: r.records[i] == Record(name, Alias(name)))
            && r.looped && r.rcode == ServerFailure && r.reason == "CNAME_LOOP"
    decreases MAX_CHAIN_DEPTH - depth
  {
    hide Decide, Normalize, Fqdn;
    NormalizeFqdn(target);
    if depth < MAX_CHAIN_DEPTH {
      EscapedTargetRepeats(w, name, target, depth + 1, path + {Normalize(name)});
    }
  }

  /** Whatever redirects, it redirects to one target. */
  ghost predicate OnlyTo(w: World, target: string) {
    forall name :: Decide(w, name).Redirect? ==> Decide(w, name).target == target
  }

  /** A query chases some owner twice. */
  ghost predicate Repeats(w: World, name: string) {
    var r, n := Resolve(w, name, 0, {}), Hops(w, name, 0, {});
    n <= |r.records| && exists i, j :: 0 <= i < j < n && Normalize(r.records[i].owner) == Normalize(r.records[j].owner)
  }

  /** The configuration with one CNAME rewrite. */
  function OneRewrite(name: string, target: string): World {
    World(QA, false, false, n => true,
          n => if n == name then [Rewrite(name, Cname, target, [])] else [], e => true,
          n => None, n => None, n => "", n => None, n => (Success, [], ""))
  }

  /** The escaped final dot is the exact cause: some configuration with no other target than this
      one chases an owner twice if and only if the target's final dot is escaped. */
  lemma RepeatsIffEscaped(target: string)
    ensures EscapedDot(target) <==> exists w: World, name: string :: OnlyTo(w, target) && Repeats(w, name)
  {
    hide Resolve, Hops, Normalize, Fqdn, EscapedDot;
    forall w: World, name: string | OnlyTo(w, target) && Repeats(w, name) ensures EscapedDot(target) {
      ChainOfQuery(w, name);
    }
    if EscapedDot(target) {
      var name := Fqdn(target);
      var w := OneRewrite(Normalize(name), target);
      OneTarget(Normalize(name), target);
      EscapedTargetRepeats(w, name, target, 0, {});
      var r := Resolve(w, name, 0, {});
      assert r.records[0] == r.records[1];
      assert OnlyTo(w, target) && Repeats(w, name);
    }
  }

  lemma OneTarget(name: string, target: string)
    ensures OnlyTo(OneRewrite(name, target), target)
    ensures forall n | Normalize(n) == name :: Decide(OneRewrite(name, target), n).Redirect?
  {
    hide Normalize;
    var w, rw := OneRewrite(name, target), Rewrite(name, Cname, target, []);
    assert w.rewrites(name) == [rw] && [rw][1..] == [];
    assert FirstRcode([rw][1..]) == None && FirstRcode([rw]) == None;
    assert Built(w, [rw][1..]) == [] && Built(w, [rw]) == [];
    assert FirstCname([rw]) == Some(target);
  }
}
