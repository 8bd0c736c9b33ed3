/** Which stage of the pipeline answers a question, stated on what surrounds the pipeline alone,
    and what it answers.  Each law holds for the question itself and for every name it chases. */
module CnameStages {
  import opened Options
  import opened Names
  import opened RewriteRules
  import opened CnameChase

  /** Neither malformed nor cut off by policy. */
  predicate Open(w: World, n: string) {
    w.validName(n) && !(w.refuseAny && w.qtype == QAny) && !(w.aaaaDisabled && w.qtype == QAaaa)
  }

  /** No rewrite, no inventory record and no private PTR record answers. */
  predicate NotLocal(w: World, n: string) {
    && w.rewrites(n) == []
    && (w.qtype == QA || w.qtype == QAaaa ==> w.magicDns(n) == None)
    && (w.qtype == QPtr ==> w.privatePtr(n) == None)
  }

  /** One record per content, in order, all owned by the name. */
  ghost predicate OwnedBy(records: seq<Record>, name: string, contents: seq<Content>) {
    |records| == |contents| && forall i | 0 <= i < |records| :: records[i].owner == name && records[i].content == contents[i]
  }

  lemma PolicyAnswers(w: World, name: string, depth: nat, path: set<string>)
    requires depth <= MAX_CHAIN_DEPTH
    ensures var n, r := Lower(TrimDot(name)), Resolve(w, name, depth, path);
            && (!w.validName(n) ==> r == Outcome(FormatError, [], false, ""))
            && (w.validName(n) && w.refuseAny && w.qtype == QAny ==> r == Outcome(QueryRefused, [], false, "REFUSE_ANY"))
            && (w.validName(n) && w.aaaaDisabled && w.qtype == QAaaa ==> r == Outcome(Success, [], false, "AAAA_DISABLED"))
  {
  }

  /** Any matching rewrite hides every later stage: the inventory, private PTR records, safe
      search, the filter and the upstream servers may change without effect. */
  lemma RewritesHideTheRest(w: World, w': World, name: string)
    requires w.rewrites(Lower(TrimDot(name))) != []
    requires w' == w.(magicDns := w'.magicDns, privatePtr := w'.privatePtr, safeSearch := w'.safeSearch,
                      filter := w'.filter, forward := w'.forward)
    ensures Decide(w, name) == Decide(w', name)
  {
    BuiltLocally(w, w', w.rewrites(Lower(TrimDot(name))));
  }

  lemma {:induction false} BuiltLocally(w: World, w': World, entries: seq<Rewrite>)
    requires w'.qtype == w.qtype && w'.builds == w.builds
    ensures Built(w, entries) == Built(w', entries)
  {
    if entries != [] {
      BuiltLocally(w, w', entries[1..]);
    }
  }

  lemma InventoryAnswers(w: World, name: string, depth: nat, path: set<string>)
    requires depth <= MAX_CHAIN_DEPTH
    requires var n := Lower(TrimDot(name));
             Open(w, n) && w.rewrites(n) == [] && (w.qtype == QA || w.qtype == QAaaa) && w.magicDns(n).Some?
    ensures var r := Resolve(w, name, depth, path);
            && OwnedBy(r.records, name, w.magicDns(Lower(TrimDot(name))).value)
            && r.rcode == Success && !r.looped && r.reason == "MagicDNS"
  {
  }

  lemma PrivatePtrAnswers(w: World, name: string, depth: nat, path: set<string>)
    requires depth <= MAX_CHAIN_DEPTH
    requires var n := Lower(TrimDot(name));
             Open(w, n) && w.rewrites(n) == [] && w.qtype == QPtr && w.privatePtr(n).Some?
    ensures var r := Resolve(w, name, depth, path);
            && OwnedBy(r.records, name, w.privatePtr(Lower(TrimDot(name))).value)
            && r.rcode == Success && !r.looped && r.reason == "PTR"
  {
  }

  /** Safe search sends address and CNAME questions to its target, whatever the filter says of the
      name asked for, and answers any other with the CNAME alone. */
  lemma SafeSearchAnswers(w: World, name: string, depth: nat, path: set<string>)
    requires depth <= MAX_CHAIN_DEPTH
    requires var n := Lower(TrimDot(name)); Open(w, n) && NotLocal(w, n) && w.safeSearch(n) != ""
    ensures var target, r := w.safeSearch(Lower(TrimDot(name))), Resolve(w, name, depth, path);
            var chased := w.qtype == QA || w.qtype == QAaaa || w.qtype == QCname;
            var seen := Lower(TrimDot(target)) in path + {Lower(TrimDot(name))};
            && (!chased ==> r == Outcome(Success, [Record(name, Alias(Fqdn(target)))], false, "SafeSearch"))
            && (chased && (seen || depth == 8) ==> r == Outcome(ServerFailure, [], true, "CNAME_LOOP"))
            && (chased && !seen && depth < 8 ==>
                  var sub := Resolve(w, Fqdn(target), depth + 1, path + {Lower(TrimDot(name))});
                  && r.rcode == sub.rcode && r.looped == sub.looped
                  && r.records == [Record(name, Alias(Fqdn(target)))] + sub.records)
  {
    hide Resolve;
    var n := Normalize(name);
    assert StageRewrites(w, name) == None && StageLocal(w, name) == None;
    assert Decide(w, name) == StageSafeSearch(w, name).value;
    ResolveOnce(w, name, depth, path);
  }

  /** One level of the recursion. */
  lemma ResolveOnce(w: World, name: string, depth: nat, path: set<string>)
    requires depth <= MAX_CHAIN_DEPTH
    ensures var r := Resolve(w, name, depth, path);
            match Decide(w, name)
            case Final(rcode, records, reason) => r == Outcome(rcode, records, false, reason)
            case Redirect(target, stage) =>
              var source, next := Normalize(name), Normalize(target);
              if next in path || next == source || depth >= MAX_CHAIN_DEPTH then r == Outcome(ServerFailure, [], true, "CNAME_LOOP")
              else
                var sub := Resolve(w, Fqdn(target), depth + 1, path + {source});
                r.rcode == sub.rcode && r.looped == sub.looped && r.records == [Record(name, Alias(Fqdn(target)))] + sub.records
  {
    hide Decide;
  }

  /** A blocked name gets the blocking answer; what the upstream servers would say is irrelevant. */
  lemma FilterAnswers(w: World, name: string, depth: nat, path: set<string>)
    requires depth <= MAX_CHAIN_DEPTH
    requires var n := Lower(TrimDot(name)); Open(w, n) && NotLocal(w, n) && w.safeSearch(n) == "" && w.filter(n).Some?
    ensures var r, (rcode, contents) := Resolve(w, name, depth, path), w.filter(Lower(TrimDot(name))).value;
            r.rcode == rcode && OwnedBy(r.records, name, contents) && !r.looped && r.reason == "Filtered"
  {
  }

  /** Only a name that no earlier stage answers is forwarded. */
  lemma ForwardAnswers(w: World, name: string, depth: nat, path: set<string>)
    requires depth <= MAX_CHAIN_DEPTH
    requires var n := Lower(TrimDot(name)); Open(w, n) && NotLocal(w, n) && w.safeSearch(n) == "" && w.filter(n) == None
    ensures var r, (rcode, records, reason) := Resolve(w, name, depth, path), w.forward(Lower(TrimDot(name)));
            r == Outcome(rcode, records, false, reason)
  {
  }

  // ----- what rewrites answer -----

  /** The first rewrite that sets a response code decides, with no records. */
  lemma RcodeAnswers(w: World, name: string, depth: nat, path: set<string>, k: nat)
    requires depth <= MAX_CHAIN_DEPTH && Open(w, Lower(TrimDot(name)))
    requires var entries := w.rewrites(Lower(TrimDot(name)));
             && k < |entries| && (entries[k].kind == NxDomain || entries[k].kind == Refused || entries[k].kind == NoError)
             && forall i | 0 <= i < k :: entries[i].kind !in {NxDomain, Refused, NoError}
    ensures var r, kind := Resolve(w, name, depth, path), w.rewrites(Lower(TrimDot(name)))[k].kind;
            && r.records == [] && !r.looped && r.reason == "Rewrite"
            && r.rcode == if kind == NxDomain then NameError else if kind == Refused then QueryRefused else Success
  {
    FirstRcodeAt(w.rewrites(Lower(TrimDot(name))), k);
  }

  lemma {:induction false} FirstRcodeAt(entries: seq<Rewrite>, k: nat)
    requires k < |entries| && (entries[k].kind == NxDomain || entries[k].kind == Refused || entries[k].kind == NoError)
    requires forall i | 0 <= i < k :: entries[i].kind !in {NxDomain, Refused, NoError}
    ensures FirstRcode(entries)
            == Some(if entries[k].kind == NxDomain then NameError else if entries[k].kind == Refused then QueryRefused else Success)
  {
    if k > 0 {
      assert entries[0].kind !in {NxDomain, Refused, NoError};
      FirstRcodeAt(entries[1..], k - 1);
    }
  }

  /** The rewrite makes a record for this question: its kind is the one asked for, and its value
      can be turned into a record. */
  predicate MakesRecord(w: World, e: Rewrite) {
    w.builds(e) &&
    match w.qtype
    case QA => e.kind == A
    case QAaaa => e.kind == Aaaa
    case QCname => e.kind == Cname
    case QPtr => e.kind == Ptr
    case QMx => e.kind == Mx
    case QTxt => e.kind == Txt
    case QSrv => e.kind == Srv
    case _ => false
  }

  /** The positions, from k on, of the rewrites that make a record, in order. */
  ghost predicate MakersFrom(w: World, entries: seq<Rewrite>, k: nat, at: seq<nat>) {
    && (forall j | 0 <= j < |at| :: k <= at[j] < |entries| && MakesRecord(w, entries[at[j]]))
    && (forall i, j | 0 <= i < j < |at| :: at[i] < at[j])
    && (forall i: nat | k <= i < |entries| && MakesRecord(w, entries[i]) :: i in at)
  }

  /** The records are those of the rewrites that make one, in order. */
  ghost predicate MadeBy(w: World, entries: seq<Rewrite>, k: nat, at: seq<nat>, contents: seq<Content>) {
    MakersFrom(w, entries, k, at) && |contents| == |at| &&
    forall j | 0 <= j < |at| ::
      at[j] < |entries| && var e := entries[at[j]];
      contents[j] == if e.kind == Cname then Alias(Fqdn(e.value)) else Data(e.value)
  }

  lemma {:induction false} BuiltByMakers(w: World, entries: seq<Rewrite>, k: nat) returns (at: seq<nat>)
    requires k <= |entries|
    ensures MadeBy(w, entries, k, at, Built(w, entries[k..]))
    decreases |entries| - k
  {
    if k == |entries| {
      at := [];
    } else {
      at := BuiltByMakers(w, entries, k + 1);
      BuiltCons(w, entries[k..]);
      assert entries[k..][1..] == entries[k + 1..];
      MakersCons(w, entries, k, at);
      hide MakesRecord, Built;
      at := (if MakesRecord(w, entries[k]) then [k] else []) + at;
    }
  }

  /** The record of one rewrite. */
  function RecordOf(e: Rewrite): Content {
    if e.kind == Cname then Alias(Fqdn(e.value)) else Data(e.value)
  }

  lemma BuiltCons(w: World, entries: seq<Rewrite>)
    requires entries != []
    ensures Built(w, entries)
            == (if MakesRecord(w, entries[0]) then [RecordOf(entries[0])] else []) + Built(w, entries[1..])
  {
    hide Fqdn;
  }

  lemma MakersCons(w: World, entries: seq<Rewrite>, k: nat, rest: seq<nat>)
    requires k < |entries| && MakersFrom(w, entries, k + 1, rest)
    ensures MakersFrom(w, entries, k, (if MakesRecord(w, entries[k]) then [k] else []) + rest)
  {
    hide MakesRecord;
  }

  /** Without a response code, the rewrites of the asked kind answer together, in order. */
  lemma RecordsAnswer(w: World, name: string, depth: nat, path: set<string>) returns (at: seq<nat>, contents: seq<Content>)
    requires depth <= MAX_CHAIN_DEPTH && Open(w, Lower(TrimDot(name)))
    requires var entries := w.rewrites(Lower(TrimDot(name)));
             && (exists e :: e in entries && MakesRecord(w, e))
             && forall e | e in entries :: e.kind !in {NxDomain, Refused, NoError}
    ensures MadeBy(w, w.rewrites(Lower(TrimDot(name))), 0, at, contents)
    ensures var r := Resolve(w, name, depth, path);
            r.rcode == Success && OwnedBy(r.records, name, contents) && !r.looped && r.reason == "Rewrite"
  {
    hide Resolve, Decide, MakesRecord, Built, FirstRcode, FirstCname, MakersFrom;
    var entries := w.rewrites(Normalize(name));
    at := BuiltByMakers(w, entries, 0);
    assert entries[0..] == entries;
    contents := Built(w, entries);
    SomeMaker(w, entries, at);
    RecordsDecide(w, name);
    ResolveOnce(w, name, depth, path);
    OwnedExact(name, contents);
  }

  lemma SomeMaker(w: World, entries: seq<Rewrite>, at: seq<nat>)
    requires MakersFrom(w, entries, 0, at) && exists e :: e in entries && MakesRecord(w, e)
    ensures at != []
  {
    hide MakesRecord;
    var e :| e in entries && MakesRecord(w, e);
    var i: nat :| i < |entries| && entries[i] == e;
    assert i in at;
  }

  lemma RecordsDecide(w: World, name: string)
    requires Open(w, Lower(TrimDot(name)))
    requires forall e | e in w.rewrites(Lower(TrimDot(name))) :: e.kind !in {NxDomain, Refused, NoError}
    requires Built(w, w.rewrites(Lower(TrimDot(name)))) != []
    ensures Decide(w, name) == Final(Success, Owned(name, Built(w, w.rewrites(Lower(TrimDot(name))))), "Rewrite")
  {
    var entries := w.rewrites(Normalize(name));
    RcodeFound(entries);
    hide Built, FirstRcode, Owned;
    assert entries != [] by { BuiltOfNone(w, entries); }
  }

  lemma BuiltOfNone(w: World, entries: seq<Rewrite>)
    ensures entries == [] ==> Built(w, entries) == []
  {
  }

  lemma OwnedExact(name: string, contents: seq<Content>)
    ensures OwnedBy(Owned(name, contents), name, contents)
  {
  }

  /** Otherwise the first CNAME rewrite is chased for an address question; any other question is
      answered with nothing. */
  lemma FirstCnameChased(w: World, name: string, k: nat)
    requires Open(w, Lower(TrimDot(name)))
    requires var entries := w.rewrites(Lower(TrimDot(name)));
             && (forall e | e in entries :: e.kind !in {NxDomain, Refused, NoError} && !MakesRecord(w, e))
             && k < |entries| && entries[k].kind == Cname && forall i | 0 <= i < k :: entries[i].kind != Cname
    ensures Decide(w, name) == if w.qtype == QA || w.qtype == QAaaa || w.qtype == QCname
                               then Redirect(w.rewrites(Lower(TrimDot(name)))[k].value, "Rewrite")
                               else Final(Success, [], "Rewrite")
  {
    hide MakesRecord;
    var entries := w.rewrites(Normalize(name));
    RcodeFound(entries);
    NothingBuilt(w, entries);
    FirstCnameAt(entries, k);
  }

  /** A covered name without a record of the asked kind has no data. */
  lemma CoveredWithoutData(w: World, name: string)
    requires Open(w, Lower(TrimDot(name)))
    requires var entries := w.rewrites(Lower(TrimDot(name)));
             entries != [] && forall e | e in entries :: e.kind !in {NxDomain, Refused, NoError, Cname} && !MakesRecord(w, e)
    ensures Decide(w, name) == Final(Success, [], "Rewrite")
  {
    hide MakesRecord;
    var entries := w.rewrites(Normalize(name));
    RcodeFound(entries);
    NothingBuilt(w, entries);
    CnameFound(entries);
  }

  lemma NothingBuilt(w: World, entries: seq<Rewrite>)
    requires forall e | e in entries :: !MakesRecord(w, e)
    ensures Built(w, entries) == []
  {
    hide MakesRecord, Built;
    var at := BuiltByMakers(w, entries, 0);
    assert entries[0..] == entries;
    if at != [] {
      MakerFound(w, entries, at);
    }
  }

  lemma MakerFound(w: World, entries: seq<Rewrite>, at: seq<nat>)
    requires MakersFrom(w, entries, 0, at) && at != []
    ensures exists e :: e in entries && MakesRecord(w, e)
  {
    hide MakesRecord;
    assert entries[at[0]] in entries;
  }

  lemma {:induction false} FirstCnameAt(entries: seq<Rewrite>, k: nat)
    requires k < |entries| && entries[k].kind == Cname && forall i | 0 <= i < k :: entries[i].kind != Cname
    ensures FirstCname(entries) == Some(entries[k].value)
  {
    if k > 0 {
      FirstCnameAt(entries[1..], k - 1);
    }
  }
}
