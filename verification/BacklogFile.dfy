/** The bounded backlog file: which queued items it omits, and what memory and a restart
    make of it.  Encoding an item is an arbitrary function that may fail. */
module BacklogFile {
  import opened Options
  import opened BacklogItems
  import opened BacklogQueue

  /** Encodes what is kept of an item: its event and time. */
  type Encoder = Saved -> Option<string>

  const HEADER := "{\"version\":1,\"items\":["
  const FOOTER := "]}"

  datatype Result =
    | Encoded(data: string, omitted: nat, seqs: set<nat>)
    | MarshalError
    | LimitTooSmall

  /** Items separated by commas. */
  function Joined(parts: seq<string>): string {
    if parts == [] then []
    else if |parts| == 1 then parts[0]
    else Joined(parts[..|parts| - 1]) + "," + parts[|parts| - 1]
  }

  function Document(parts: seq<string>): string {
    HEADER + Joined(parts) + FOOTER
  }

  function Length(parts: seq<string>): nat {
    if parts == [] then 0 else Length(parts[..|parts| - 1]) + |parts[|parts| - 1]|
  }

  /** Bytes of the document with these parts. */
  function Size(parts: seq<string>): nat {
    |HEADER| + |FOOTER| + Length(parts) + if parts == [] then 0 else |parts| - 1
  }

  /** The parts that remain when k queued items, after the first inFlight, are left out. */
  function Remaining(parts: seq<string>, inFlight: nat, k: nat): seq<string>
    requires inFlight + k <= |parts|
  {
    parts[..inFlight] + parts[inFlight + k..]
  }

  predicate AllEncode(enc: Encoder, items: seq<Item>) {
    forall i | 0 <= i < |items| :: enc(Persisted(items[i])).Some?
  }

  function Parts(enc: Encoder, items: seq<Item>): seq<string>
    requires AllEncode(enc, items)
  {
    seq(|items|, i requires 0 <= i < |items| => enc(Persisted(items[i])).value)
  }

  /** Leaving out the first k queued items is the least that makes the document fit. */
  predicate ShortestFit(parts: seq<string>, inFlight: nat, maxBytes: int, k: nat) {
    && inFlight + k <= |parts|
    && |Document(Remaining(parts, inFlight, k))| <= maxBytes
    && forall j | 0 <= j < k :: |Document(Remaining(parts, inFlight, j))| > maxBytes
  }

  /** The arithmetic of the encoder is exact. */
  lemma {:induction false} DocumentSize(parts: seq<string>)
    ensures |Document(parts)| == Size(parts)
  {
    JoinedLength(parts);
  }

  lemma {:induction false} JoinedLength(parts: seq<string>)
    ensures |Joined(parts)| == Length(parts) + if parts == [] then 0 else |parts| - 1
  {
    if |parts| == 1 {
      assert parts[..0] == [];
    } else if |parts| > 1 {
      JoinedLength(parts[..|parts| - 1]);
    }
  }

  lemma {:induction false} LengthConcat(a: seq<string>, b: seq<string>)
    ensures Length(a + b) == Length(a) + Length(b)
  {
    if b == [] {
      assert a + b == a;
    } else {
      var n := |b| - 1;
      LengthConcat(a, b[..n]);
      assert (a + b)[..|a| + n] == a + b[..n];
    }
  }

  /** Leaving out one more item saves its bytes, and a comma unless it was the last one. */
  lemma OmitOne(parts: seq<string>, inFlight: nat, k: nat)
    requires inFlight + k < |parts|
    ensures Size(Remaining(parts, inFlight, k + 1))
            == Size(Remaining(parts, inFlight, k)) - |parts[inFlight + k]| - (if |parts| - k > 1 then 1 else 0)
  {
    var a, x, b := parts[..inFlight], parts[inFlight + k], parts[inFlight + k + 1..];
    assert parts[inFlight + k..] == [x] + b;
    LengthConcat(a, [x] + b);
    LengthConcat([x], b);
    LengthConcat(a, b);
    assert [x][..0] == [];
    assert Length([x]) == |x|;
  }

  /** Omitting more never makes the document longer. */
  lemma {:induction false} OmitMonotone(parts: seq<string>, inFlight: nat, k: nat, k': nat)
    requires k <= k' && inFlight + k' <= |parts|
    ensures Size(Remaining(parts, inFlight, k')) <= Size(Remaining(parts, inFlight, k))
  {
    if k < k' {
      OmitMonotone(parts, inFlight, k, k' - 1);
      OmitOne(parts, inFlight, k' - 1);
    }
  }

  /** Encodes every item once, adding up the size as it goes. */
  method EncodeItems(items: seq<Item>, enc: Encoder) returns (ok: bool, parts: seq<string>, total: nat)
    ensures ok <==> AllEncode(enc, items)
    ensures ok ==> parts == Parts(enc, items) && total == Size(parts)
  {
    parts, total := [], |HEADER| + |FOOTER|;
    for i := 0 to |items|
      invariant AllEncode(enc, items[..i]) && parts == Parts(enc, items[..i]) && total == Size(parts)
    {
      var e := enc(Persisted(items[i]));
      if e.None? {
        return false, parts, total;
      }
      assert (parts + [e.value])[..|parts|] == parts;
      total := total + |e.value|;
      if i > 0 {
        total := total + 1;
      }
      parts := parts + [e.value];
    }
    assert items[..|items|] == items;
    return true, parts, total;
  }

  /** The document without the omitted items, built in one pass. */
  method WriteDocument(parts: seq<string>, inFlight: nat, omitted: nat) returns (data: string)
    requires inFlight + omitted <= |parts|
    ensures data == Document(Remaining(parts, inFlight, omitted))
  {
    hide Document, Joined, Kept, Remaining;
    DocumentParts(parts, inFlight, omitted);
    data := HEADER;
    var first := true;
    ghost var kept: seq<string> := [];
    for i := 0 to |parts|
      invariant kept == Kept(parts, inFlight, omitted, i)
      invariant first <==> kept == []
      invariant data == HEADER + Joined(kept)
    {
      KeptNext(parts, inFlight, omitted, i);
      if !(inFlight <= i < inFlight + omitted) {
        JoinedSnoc(kept, parts[i]);
        if !first {
          data := data + ",";
        }
        first := false;
        data := data + parts[i];
        kept := kept + [parts[i]];
      }
    }
    data := data + FOOTER;
  }

  lemma DocumentParts(parts: seq<string>, inFlight: nat, omitted: nat)
    requires inFlight + omitted <= |parts|
    ensures Kept(parts, inFlight, omitted, 0) == [] && Joined([]) == ""
    ensures Kept(parts, inFlight, omitted, |parts|) == Remaining(parts, inFlight, omitted)
    ensures Document(Remaining(parts, inFlight, omitted)) == HEADER + Joined(Remaining(parts, inFlight, omitted)) + FOOTER
  {
  }

  /** What the first i parts contribute. */
  function Kept(parts: seq<string>, inFlight: nat, omitted: nat, i: nat): seq<string>
    requires inFlight + omitted <= |parts| && i <= |parts|
  {
    if i <= inFlight then parts[..i]
    else if i <= inFlight + omitted then parts[..inFlight]
    else parts[..inFlight] + parts[inFlight + omitted..i]
  }

  lemma KeptNext(parts: seq<string>, inFlight: nat, omitted: nat, i: nat)
    requires inFlight + omitted <= |parts| && i < |parts|
    ensures Kept(parts, inFlight, omitted, i + 1)
            == if inFlight <= i < inFlight + omitted then Kept(parts, inFlight, omitted, i)
               else Kept(parts, inFlight, omitted, i) + [parts[i]]
  {
  }

  lemma JoinedSnoc(parts: seq<string>, x: string)
    ensures Joined(parts + [x]) == if parts == [] then x else Joined(parts) + "," + x
  {
  }

  /** How many queued items must go, by subtracting their sizes one after the other. */
  method CountOmitted(parts: seq<string>, inFlight: nat, maxBytes: int, total: nat) returns (fits: bool, omitted: nat)
    requires inFlight <= |parts| && total == Size(parts)
    ensures fits ==> ShortestFit(parts, inFlight, maxBytes, omitted)
    ensures !fits ==> |Document(parts[..inFlight])| > maxBytes
  {
    hide Size, Document;
    var size: int := total;
    assert Remaining(parts, inFlight, 0) == parts;
    omitted := 0;
    while size > maxBytes && inFlight + omitted < |parts|
      invariant inFlight + omitted <= |parts|
      invariant size == Size(Remaining(parts, inFlight, omitted))
      invariant forall k | 0 <= k < omitted :: |Document(Remaining(parts, inFlight, k))| > maxBytes
    {
      DocumentSize(Remaining(parts, inFlight, omitted));
      OmitOne(parts, inFlight, omitted);
      size := size - |parts[inFlight + omitted]|;
      if |parts| - omitted > 1 {
        size := size - 1;
      }
      omitted := omitted + 1;
    }
    DocumentSize(Remaining(parts, inFlight, omitted));
    fits := size <= maxBytes;
    if !fits {
      assert Remaining(parts, inFlight, omitted) == parts[..inFlight];
    }
  }

  /** The file keeps every in-flight item and omits the shortest prefix of the queue that
      makes it fit; it fails only when even that is not enough. */
  method EncodeBounded(items: seq<Item>, inFlight: nat, maxBytes: int, enc: Encoder) returns (r: Result)
    requires inFlight <= |items|
    ensures r.MarshalError? <==> !AllEncode(enc, items)
    ensures r.Encoded? ==>
              && ShortestFit(Parts(enc, items), inFlight, maxBytes, r.omitted)
              && r.data == Document(Remaining(Parts(enc, items), inFlight, r.omitted))
              && r.seqs == SeqNos(items[inFlight..inFlight + r.omitted])
    ensures r.LimitTooSmall? ==> |Document(Parts(enc, items)[..inFlight])| > maxBytes
  {
    hide Document, Size;
    var ok, parts, total := EncodeItems(items, enc);
    if !ok {
      return MarshalError;
    }
    var fits, omitted := CountOmitted(parts, inFlight, maxBytes, total);
    if !fits {
      return LimitTooSmall;
    }
    var data := WriteDocument(parts, inFlight, omitted);
    var seqs := {};
    for i := inFlight to inFlight + omitted
      invariant seqs == SeqNos(items[inFlight..i])
    {
      assert items[inFlight..i + 1] == items[inFlight..i] + [items[i]];
      seqs := seqs + {items[i].seqNo};
    }
    return Encoded(data, omitted, seqs);
  }

  // ----- what follows for memory, admission and restarts -----

  /** After a flush without interference the queue is what the file holds. */
  lemma FlushMatchesMemory(inFlight: seq<Item>, backlog: seq<Item>, omitted: nat)
    requires Increasing(inFlight + backlog) && omitted <= |backlog|
    ensures var items := inFlight + backlog;
            inFlight + Without(backlog, SeqNos(items[|inFlight|..|inFlight| + omitted]))
            == items[..|inFlight|] + items[|inFlight| + omitted..]
  {
    var items := inFlight + backlog;
    IncreasingParts(inFlight, backlog);
    assert items[|inFlight|..|inFlight| + omitted] == backlog[..omitted];
    WithoutPrefix(backlog, omitted);
  }

  /** Each item's charge covers its encoding and a separating comma. */
  predicate ChargesCover(items: seq<Item>, parts: seq<string>) {
    |items| == |parts| && forall i | 0 <= i < |items| :: |parts[i]| + 1 <= items[i].size
  }

  lemma {:induction false} ChargesBoundLength(items: seq<Item>, parts: seq<string>)
    requires ChargesCover(items, parts)
    ensures Length(parts) + |parts| <= Bytes(items)
  {
    if items != [] {
      ChargesBoundLength(items[..|items| - 1], parts[..|parts| - 1]);
    }
  }

  lemma CoveredSize(items: seq<Item>, parts: seq<string>, inFlight: nat)
    requires ChargesCover(items, parts) && inFlight < |items|
    requires |parts[inFlight]| + 1 >= |HEADER| + |FOOTER|
    ensures |Document(Remaining(parts, inFlight, 1))| <= Bytes(items)
  {
    hide Document, Length, Bytes, HEADER, FOOTER;
    ChargesBoundLength(items, parts);
    assert Remaining(parts, inFlight, 0) == parts;
    OmitOne(parts, inFlight, 0);
    DocumentSize(Remaining(parts, inFlight, 1));
  }

  /** Charges that fit the limit leave at most the frame of the document uncovered, so at
      most one queued item is omitted: an encoded item is longer than the frame. */
  lemma AtMostOneOmitted(items: seq<Item>, parts: seq<string>, inFlight: nat, maxBytes: int, omitted: nat)
    requires ChargesCover(items, parts) && Bytes(items) <= maxBytes && inFlight < |items|
    requires |parts[inFlight]| + 1 >= |HEADER| + |FOOTER|
    requires ShortestFit(parts, inFlight, maxBytes, omitted)
    ensures omitted <= 1
  {
    hide Document, Bytes;
    CoveredSize(items, parts, inFlight);
  }

  /** Nothing is omitted exactly when the whole document fits, frame included; admission
      checks only the charges, so a full queue can lose an event when it is written. */
  lemma NothingOmittedIff(parts: seq<string>, inFlight: nat, maxBytes: int, omitted: nat)
    requires ShortestFit(parts, inFlight, maxBytes, omitted)
    ensures omitted == 0 <==> |HEADER| + |FOOTER| + Length(parts) + (if parts == [] then 0 else |parts| - 1) <= maxBytes
  {
    if inFlight <= |parts| {
      assert Remaining(parts, inFlight, 0) == parts;
      DocumentSize(parts);
    }
  }

  /** An admitted event can be lost to the frame: its charge fits the limit and covers its
      encoding, yet the file has no room for it. */
  lemma AdmittedEventOmitted(x: Item, part: string)
    requires |part| + 1 == x.size && |HEADER| + |FOOTER| <= x.size
    ensures ChargesCover([x], [part]) && Bytes([x]) <= x.size
    ensures ShortestFit([part], 0, x.size, 1)
  {
  }

  type Decoder = string -> Option<seq<Saved>>

  /** Decoding a document gives back the events and times that were encoded. */
  ghost predicate InverseCodec(enc: Encoder, dec: Decoder) {
    forall items | AllEncode(enc, items) :: dec(Document(Parts(enc, items))) == Some(Events(items))
  }

  /** Charging the saved events again gives the bytes of the items. */
  lemma BytesAreSaved(items: seq<Item>, charge: Charge)
    requires Charged(items, charge)
    ensures SavedBytes(Events(items), charge) == Bytes(items)
  {
    if items != [] {
      var n := |items| - 1;
      assert items[n] in items && forall x | x in items[..n] :: x in items;
      BytesAreSaved(items[..n], charge);
      assert Events(items)[..n] == Events(items[..n]);
    }
  }

  /** The items a file keeps. */
  function KeptItems(items: seq<Item>, inFlight: nat, omitted: nat): seq<Item>
    requires inFlight + omitted <= |items|
  {
    items[..inFlight] + items[inFlight + omitted..]
  }

  lemma KeptBytes(items: seq<Item>, inFlight: nat, omitted: nat)
    requires inFlight + omitted <= |items|
    ensures Bytes(KeptItems(items, inFlight, omitted)) <= Bytes(items)
  {
    hide Bytes;
    var a, b, c := items[..inFlight], items[inFlight..inFlight + omitted], items[inFlight + omitted..];
    assert items == a + (b + c);
    BytesAppend(a, b + c);
    BytesAppend(b, c);
    BytesAppend(a, c);
  }

  lemma KeptParts(items: seq<Item>, inFlight: nat, omitted: nat, enc: Encoder)
    requires inFlight + omitted <= |items| && AllEncode(enc, items)
    ensures AllEncode(enc, KeptItems(items, inFlight, omitted))
    ensures Parts(enc, KeptItems(items, inFlight, omitted)) == Remaining(Parts(enc, items), inFlight, omitted)
  {
  }

  /** A restart reads back the kept items, in order and without a drop, and charges them as
      before. */
  lemma RestartRestores(items: seq<Item>, inFlight: nat, omitted: nat, enc: Encoder, dec: Decoder, charge: Charge,
                        limit: int, now: int)
    requires inFlight + omitted <= |items| && AllEncode(enc, items) && InverseCodec(enc, dec)
    requires Charged(items, charge) && (limit <= 0 || Bytes(items) <= limit)
    ensures var kept := KeptItems(items, inFlight, omitted);
            && dec(Document(Remaining(Parts(enc, items), inFlight, omitted))) == Some(Events(kept))
            && Restored(Events(kept), charge, limit, 0, now) == Refreshed(Events(kept), now)
            && RestoredTotal(Events(kept), charge, limit, 0) == Bytes(kept)
            && forall i | 0 <= i < |kept| ::
                 var restored := Refreshed(Events(kept), now)[i];
                 restored.event == kept[i].event
                 && restored.queuedAt == Some(if kept[i].queuedAt > now + 60_000_000_000 then now else kept[i].queuedAt)
  {
    var kept := KeptItems(items, inFlight, omitted);
    KeptBytes(items, inFlight, omitted);
    KeptParts(items, inFlight, omitted, enc);
    assert Charged(kept, charge);
    BytesAreSaved(kept, charge);
    RestoredAll(Events(kept), charge, limit, now);
  }
}
