/** A codec as the backlog file assumes it exists: parts without commas can be told apart in a
    document, so any injective comma-free encoding has an inverse. */
module BacklogCodec {
  import opened Options
  import opened BacklogItems
  import opened BacklogQueue
  import opened BacklogFile

  predicate CommaFree(part: string) {
    part != "" && ',' !in part
  }

  predicate AllCommaFree(parts: seq<string>) {
    forall i | 0 <= i < |parts| :: CommaFree(parts[i])
  }

  /** Where the last comma is. */
  predicate LastComma(s: string, p: nat) {
    p < |s| && s[p] == ',' && forall i | p < i < |s| :: s[i] != ','
  }

  lemma OneLastComma(s: string, p: nat, q: nat)
    requires LastComma(s, p) && LastComma(s, q)
    ensures p == q
  {
  }

  lemma JoinedAtComma(parts: seq<string>)
    requires |parts| > 1 && AllCommaFree(parts)
    ensures var n, p := |parts| - 1, |Joined(parts[..|parts| - 1])|;
            LastComma(Joined(parts), p) && Joined(parts)[..p] == Joined(parts[..n]) && Joined(parts)[p + 1..] == parts[n]
  {
    var n, p := |parts| - 1, |Joined(parts[..|parts| - 1])|;
    assert Joined(parts) == Joined(parts[..n]) + "," + parts[n];
    assert Joined(parts)[p + 1..] == parts[n];
    forall i | p < i < |Joined(parts)| ensures Joined(parts)[i] != ',' {
      assert Joined(parts)[i] == parts[n][i - p - 1];
    }
  }

  /** The parts can be read back from the joined text. */
  lemma {:induction false} JoinedInjective(a: seq<string>, b: seq<string>)
    requires AllCommaFree(a) && AllCommaFree(b) && Joined(a) == Joined(b)
    ensures a == b
  {
    if |a| > 1 {
      JoinedAtComma(a);
    }
    if |b| > 1 {
      JoinedAtComma(b);
    }
    if |a| > 1 && |b| > 1 {
      var m, n := |a| - 1, |b| - 1;
      OneLastComma(Joined(a), |Joined(a[..m])|, |Joined(b[..n])|);
      JoinedInjective(a[..m], b[..n]);
      assert a == a[..m] + [a[m]] && b == b[..n] + [b[n]];
    }
  }

  lemma DocumentInjective(a: seq<string>, b: seq<string>)
    requires AllCommaFree(a) && AllCommaFree(b) && Document(a) == Document(b)
    ensures a == b
  {
    var n := |HEADER|;
    assert |Joined(a)| == |Joined(b)|;
    assert Joined(a) == Document(a)[n..n + |Joined(a)|];
    assert Joined(b) == Document(b)[n..n + |Joined(b)|];
    JoinedInjective(a, b);
  }

  ghost predicate Injective(enc: Encoder) {
    forall s, t | enc(s).Some? && enc(s) == enc(t) :: s == t
  }

  ghost predicate Encodes(enc: Encoder, items: seq<Item>, data: string) {
    AllEncode(enc, items) && Document(Parts(enc, items)) == data
  }

  /** Reads back any document, by searching for what was encoded. */
  ghost function Read(enc: Encoder): Decoder {
    data =>
      if exists items :: Encodes(enc, items, data)
      then var items :| Encodes(enc, items, data); Some(Events(items))
      else None
  }

  /** An encoding that gives different text to different events or times has an inverse. */
  lemma InverseExists(enc: Encoder)
    requires Injective(enc) && forall s | enc(s).Some? :: CommaFree(enc(s).value)
    ensures InverseCodec(enc, Read(enc))
  {
    forall items | AllEncode(enc, items) ensures Read(enc)(Document(Parts(enc, items))) == Some(Events(items)) {
      var data := Document(Parts(enc, items));
      assert Encodes(enc, items, data);
      forall other | Encodes(enc, other, data) ensures Events(other) == Events(items) {
        SameEvents(enc, items, other);
      }
    }
  }

  lemma SameEvents(enc: Encoder, a: seq<Item>, b: seq<Item>)
    requires Injective(enc) && forall s | enc(s).Some? :: CommaFree(enc(s).value)
    requires AllEncode(enc, a) && AllEncode(enc, b) && Document(Parts(enc, a)) == Document(Parts(enc, b))
    ensures Events(a) == Events(b)
  {
    hide Document;
    DocumentInjective(Parts(enc, a), Parts(enc, b));
    forall i | 0 <= i < |a| ensures Persisted(a[i]) == Persisted(b[i]) {
      assert Parts(enc, a)[i] == Parts(enc, b)[i];
    }
  }

  /** Such an encoding: the event and the time in unary. */
  function Unary(n: nat, c: char): string {
    seq(n, _ => c)
  }

  function Text(s: Saved): string {
    Unary(s.event, 'e') + match s.queuedAt case None => "n" case Some(t) => if t >= 0 then "+" + Unary(t, 't') else "-" + Unary(-t, 't')
  }

  lemma EventInText(s: Saved)
    ensures s.event < |Text(s)| && Text(s)[s.event] != 'e' && forall i | 0 <= i < s.event :: Text(s)[i] == 'e'
  {
  }

  lemma TextInjective(s: Saved, t: Saved)
    requires Text(s) == Text(t)
    ensures s == t
  {
    EventInText(s);
    EventInText(t);
    assert s.event == t.event;
    assert Text(s)[s.event] == Text(t)[t.event] && |Text(s)| == |Text(t)|;
  }

  /** The assumption about the codec can be met by an encoding of every event. */
  lemma CodecExists() returns (enc: Encoder)
    ensures (forall s :: enc(s).Some?) && InverseCodec(enc, Read(enc))
  {
    enc := s => Some(Text(s));
    forall s, t | enc(s) == enc(t) ensures s == t {
      TextInjective(s, t);
    }
    InverseExists(enc);
  }
}
