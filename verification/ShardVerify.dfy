/** Hash-chain verification against a pinned tip and count (src/dsm/verify.py). */
module ShardVerify {
  import opened Common

  datatype Entry = Entry(
    id: string, shard: string, version: string,
    sessionId: string, source: string, timestamp: string, metadata: Option<map<string, string>>, content: string,
    prevHash: Option<string>, hash: Option<string>)

  /**
   The hashed fields. A missing metadata dictionary hashes like an empty one; id, shard and version are not hashed.
   */
  datatype Canonical = Canonical(
    sessionId: string, source: string, timestamp: string, metadata: map<string, string>, content: string,
    prevHash: Option<string>)

  function Canon(e: Entry): Canonical {
    Canonical(e.sessionId, e.source, e.timestamp, if e.metadata.Some? then e.metadata.value else map[], e.content,
        e.prevHash)
  }

  /** The hex digest of a canonical entry. */
  type Digest = Canonical -> string

  ghost predicate Collide(digest: Digest, c: Canonical, d: Canonical) {
    digest(c) == digest(d)
  }

  /** Collision-free, and hex: never empty and without a colon. */
  ghost predicate GoodDigest(digest: Digest) {
    && (forall c, d :: Collide(digest, c, d) ==> c == d)
    && (forall c :: digest(c) != "" && ':' !in digest(c))
  }

  const V1 := "v1:"

  /** Prefix-routed check: current `v1:` hashes, legacy bare hashes, everything else refused. */
  predicate VerifyHash(digest: Digest, c: Canonical, stored: string) {
    if V1 <= stored then V1 + digest(c) == stored
    else ':' !in stored && digest(c) == stored
  }

  predicate HasHash(e: Entry) {
    e.hash.Some? && e.hash.value != ""
  }

  predicate HashOk(digest: Digest, e: Entry) {
    HasHash(e) && VerifyHash(digest, Canon(e), e.hash.value)
  }

  // ----- what the loop counts -----

  /** The hash carried forward: the last non-empty one seen. */
  function Carried(es: seq<Entry>): Option<string> {
    if es == [] then None
    else if HasHash(es[|es| - 1]) then es[|es| - 1].hash
    else Carried(es[..|es| - 1])
  }

  predicate Breaks(es: seq<Entry>, i: nat)
    requires i < |es|
  {
    Carried(es[..i]).Some? && es[i].prevHash != Carried(es[..i])
  }

  function CountTampered(digest: Digest, es: seq<Entry>): nat {
    if es == [] then 0
    else CountTampered(digest, es[..|es| - 1]) + if HashOk(digest, es[|es| - 1]) then 0 else 1
  }

  function CountBreaks(es: seq<Entry>): nat {
    if es == [] then 0 else CountBreaks(es[..|es| - 1]) + if Breaks(es, |es| - 1) then 1 else 0
  }

  function CountVerified(digest: Digest, es: seq<Entry>): nat {
    if es == [] then 0
    else CountVerified(digest, es[..|es| - 1]) +
         if es[|es| - 1].prevHash == Carried(es[..|es| - 1]) && HashOk(digest, es[|es| - 1]) then 1 else 0
  }

  function Parsed(events: seq<Option<Entry>>): seq<Entry> {
    if events == [] then []
    else Parsed(events[..|events| - 1]) + (match events[|events| - 1] case None => [] case Some(e) => [e])
  }

  // ----- the pin -----

  datatype Pin = Pin(lastHash: Option<string>, entryCount: Option<int>)
  datatype PinStatus = PinnedOk | Unpinned | TipMismatch | AheadOfPin
  datatype Mismatch = Truncation | CountMismatchType | TipMismatchType
  datatype Status = OK | Tampered | ChainBroken

  datatype Result = Result(
    total: nat, verified: nat, tampered: nat, chainBreaks: nat, status: Status,
    pinStatus: PinStatus, tipMismatch: bool, countMismatch: bool, truncated: bool, mismatch: Option<Mismatch>)

  function ObservedTip(es: seq<Entry>): Option<string> {
    if es == [] then None else es[|es| - 1].hash
  }

  predicate Pinned(pin: Option<Pin>) {
    pin.Some? && pin.value.lastHash.Some? && pin.value.lastHash.value != ""
  }

  /** The pin verdict, stated on the observed list. */
  function PinVerdict(es: seq<Entry>, pin: Option<Pin>): PinStatus {
    if !Pinned(pin) then Unpinned
    else
      var count := pin.value.entryCount;
      if count.Some? && |es| < count.value then TipMismatch
      else if count.Some? && |es| > count.value then AheadOfPin
      else if ObservedTip(es) != pin.value.lastHash then TipMismatch
      else PinnedOk
  }

  /** Every stored hash recomputes and every entry names its predecessor's hash. The first entry's `prev` is free. */
  ghost predicate Sound(digest: Digest, es: seq<Entry>) {
    && (forall i :: 0 <= i < |es| ==> HashOk(digest, es[i]))
    && (forall i :: 1 <= i < |es| ==> es[i].prevHash == es[i - 1].hash)
  }

  lemma {:induction false} NoTampered(digest: Digest, es: seq<Entry>)
    ensures CountTampered(digest, es) == 0 <==> forall i :: 0 <= i < |es| ==> HashOk(digest, es[i])
  {
    if es != [] {
      NoTampered(digest, es[..|es| - 1]);
    }
  }

  lemma {:induction false} NoBreaks(es: seq<Entry>)
    requires forall i :: 0 <= i < |es| ==> HasHash(es[i])
    ensures CountBreaks(es) == 0 <==> forall i :: 1 <= i < |es| ==> es[i].prevHash == es[i - 1].hash
  {
    if es != [] {
      var front := es[..|es| - 1];
      NoBreaks(front);
      if front != [] { assert Carried(front) == es[|es| - 2].hash; }
    }
  }

  /** The two counters are zero together exactly on sound lists. */
  lemma CountersMeanSound(digest: Digest, es: seq<Entry>)
    ensures CountTampered(digest, es) == 0 && CountBreaks(es) == 0 <==> Sound(digest, es)
  {
    NoTampered(digest, es);
    if forall i :: 0 <= i < |es| ==> HashOk(digest, es[i]) { NoBreaks(es); }
  }

  // ----- the same, on the events as read -----

  /** A hash is accepted in exactly two forms: versioned, and bare. */
  lemma VerifyHashIff(digest: Digest, c: Canonical, stored: string)
    requires GoodDigest(digest)
    ensures VerifyHash(digest, c, stored) <==> stored == "v1:" + digest(c) || stored == digest(c)
  {
    if V1 <= stored {
      assert stored[2] == ':' && ':' in stored;
    }
  }

  lemma ParsedSnoc(events: seq<Option<Entry>>, event: Option<Entry>)
    ensures Parsed(events + [event]) == Parsed(events) + if event.Some? then [event.value] else []
  {
    assert (events + [event])[..|events|] == events;
  }

  /** Where every event parses, what is verified is just that list. */
  lemma {:induction false} ParsedAll(events: seq<Option<Entry>>, es: seq<Entry>)
    requires |events| == |es| && forall i :: 0 <= i < |es| ==> events[i] == Some(es[i])
    ensures Parsed(events) == es
  {
    if es != [] {
      var n := |es| - 1;
      ParsedAll(events[..n], es[..n]);
      assert es == es[..n] + [es[n]];
    }
  }

  /** An event that does not parse changes nothing. */
  lemma {:induction false} UnparsedIsIgnored(a: seq<Option<Entry>>, b: seq<Option<Entry>>)
    ensures Parsed(a + [None] + b) == Parsed(a + b)
    decreases |b|
  {
    if b == [] {
      ParsedSnoc(a, None);
      assert a + [None] + b == a + [None] && a + b == a;
    } else {
      var front, last := b[..|b| - 1], b[|b| - 1];
      UnparsedIsIgnored(a, front);
      assert a + [None] + b == (a + [None] + front) + [last] && a + b == (a + front) + [last];
      ParsedSnoc(a + [None] + front, last);
      ParsedSnoc(a + front, last);
    }
  }

  lemma ParsedNext(events: seq<Option<Entry>>, n: nat)
    requires n < |events|
    ensures events[n].Some? ==> Parsed(events[..n + 1]) == Parsed(events[..n]) + [events[n].value]
    ensures events[n].None? ==> Parsed(events[..n + 1]) == Parsed(events[..n])
  {
    assert events[..n + 1] == events[..n] + [events[n]];
    ParsedSnoc(events[..n], events[n]);
  }

  /** The event at `i` parsed, and none after it did, up to `n`. */
  ghost predicate LastBefore(events: seq<Option<Entry>>, i: int, n: int) {
    0 <= i < n <= |events| && events[i].Some? && forall k :: i < k < n ==> events[k].None?
  }

  lemma {:induction false} LastParsed(events: seq<Option<Entry>>, i: int, n: nat)
    requires LastBefore(events, i, n)
    ensures var es := Parsed(events[..n]); es != [] && es[|es| - 1] == events[i].value
  {
    ParsedNext(events, n - 1);
    if i < n - 1 { LastParsed(events, i, n - 1); }
  }

  lemma {:induction false} LastExists(events: seq<Option<Entry>>, n: nat) returns (i: int)
    requires n <= |events| && Parsed(events[..n]) != []
    ensures LastBefore(events, i, n)
  {
    ParsedNext(events, n - 1);
    if events[n - 1].Some? { i := n - 1; } else { i := LastExists(events, n - 1); }
  }

  /** Every event before `n` that parsed checks, and names the hash of the one that parsed before it. */
  ghost predicate SoundEvents(digest: Digest, events: seq<Option<Entry>>, n: nat)
    requires n <= |events|
  {
    && (forall i :: 0 <= i < n && events[i].Some? ==> HashOk(digest, events[i].value))
    && (forall i, j :: 0 <= j < n && events[j].Some? && LastBefore(events, i, j) ==>
          events[j].value.prevHash == events[i].value.hash)
  }

  lemma SoundSnoc(digest: Digest, es: seq<Entry>, e: Entry)
    ensures Sound(digest, es + [e]) <==>
            Sound(digest, es) && HashOk(digest, e) && (es != [] ==> e.prevHash == es[|es| - 1].hash)
  {
    var r := es + [e];
    assert forall i :: 0 <= i < |es| ==> r[i] == es[i];
    if Sound(digest, r) {
      forall i | 1 <= i < |es| ensures es[i].prevHash == es[i - 1].hash {
        assert r[i].prevHash == r[i - 1].hash;
      }
      assert r[|es|] == e;
    }
  }

  /** Naming the last parsed event's hash, said of the list and of the events. */
  lemma LinkIff(events: seq<Option<Entry>>, n: nat, prev: Option<string>)
    requires n <= |events|
    ensures var es := Parsed(events[..n]);
      (es != [] ==> prev == es[|es| - 1].hash) <==>
      (forall i :: LastBefore(events, i, n) ==> prev == events[i].value.hash)
  {
    var es := Parsed(events[..n]);
    forall i | LastBefore(events, i, n) ensures es != [] && es[|es| - 1] == events[i].value {
      LastParsed(events, i, n);
    }
    if es != [] { var i := LastExists(events, n); }
  }

  lemma SoundNext(digest: Digest, events: seq<Option<Entry>>, n: nat)
    requires n < |events|
    ensures SoundEvents(digest, events, n + 1) <==>
            && SoundEvents(digest, events, n)
            && (events[n].Some? ==> HashOk(digest, events[n].value))
            && (events[n].Some? ==>
                  forall i :: LastBefore(events, i, n) ==> events[n].value.prevHash == events[i].value.hash)
  {
  }

  lemma {:induction false} SoundEventsIff(digest: Digest, events: seq<Option<Entry>>, n: nat)
    requires n <= |events|
    ensures SoundEvents(digest, events, n) <==> Sound(digest, Parsed(events[..n]))
  {
    if n > 0 {
      var es, last := Parsed(events[..n - 1]), events[n - 1];
      SoundEventsIff(digest, events, n - 1);
      SoundNext(digest, events, n - 1);
      ParsedNext(events, n - 1);
      if last.Some? {
        SoundSnoc(digest, es, last.value);
        LinkIff(events, n - 1, last.value.prevHash);
      }
    }
  }

  // ----- the counters as cardinalities -----

  /** The last non-empty hash among the events before `i`. */
  function CarriedAt(events: seq<Option<Entry>>, i: nat): Option<string>
    requires i <= |events|
  {
    Carried(Parsed(events[..i]))
  }

  predicate TamperedAt(digest: Digest, events: seq<Option<Entry>>, i: int) {
    0 <= i < |events| && events[i].Some? && !HashOk(digest, events[i].value)
  }

  predicate BrokenAt(events: seq<Option<Entry>>, i: int) {
    && 0 <= i < |events| && events[i].Some?
    && CarriedAt(events, i).Some? && events[i].value.prevHash != CarriedAt(events, i)
  }

  predicate VerifiedAt(digest: Digest, events: seq<Option<Entry>>, i: int) {
    && 0 <= i < |events| && events[i].Some?
    && HashOk(digest, events[i].value) && events[i].value.prevHash == CarriedAt(events, i)
  }

  predicate Hashed(event: Option<Entry>) {
    event.Some? && event.value.hash.Some? && event.value.hash.value != ""
  }

  /** What is carried is the hash of the last hashed event, and nothing when there is none. */
  lemma {:induction false} CarriedMeans(events: seq<Option<Entry>>, n: nat)
    requires n <= |events|
    ensures CarriedAt(events, n).None? <==> forall i :: 0 <= i < n ==> !Hashed(events[i])
    ensures forall i :: 0 <= i < n && Hashed(events[i]) && (forall k :: i < k < n ==> !Hashed(events[k])) ==>
              CarriedAt(events, n) == events[i].value.hash
  {
    if n > 0 {
      var last := events[n - 1];
      CarriedMeans(events, n - 1);
      ParsedNext(events, n - 1);
      if last.Some? { CarriedSnoc(Parsed(events[..n - 1]), last.value); }
      assert CarriedAt(events, n) == if Hashed(last) then last.value.hash else CarriedAt(events, n - 1);
    }
  }

  lemma CarriedSnoc(es: seq<Entry>, e: Entry)
    ensures Carried(es + [e]) == if HasHash(e) then e.hash else Carried(es)
  {
    assert (es + [e])[..|es|] == es;
  }

  lemma CountsSnoc(digest: Digest, es: seq<Entry>, e: Entry)
    ensures CountTampered(digest, es + [e]) == CountTampered(digest, es) + if HashOk(digest, e) then 0 else 1
    ensures CountBreaks(es + [e]) ==
            CountBreaks(es) + if Carried(es).Some? && e.prevHash != Carried(es) then 1 else 0
    ensures CountVerified(digest, es + [e]) ==
            CountVerified(digest, es) + if e.prevHash == Carried(es) && HashOk(digest, e) then 1 else 0
  {
    assert (es + [e])[..|es|] == es;
  }

  function CountTrue(marks: seq<bool>, n: nat): nat
    requires n <= |marks|
  {
    if n == 0 then 0 else CountTrue(marks, n - 1) + if marks[n - 1] then 1 else 0
  }

  lemma {:induction false} MarkedPlaces(marks: seq<bool>, n: nat)
    requires n <= |marks|
    ensures |set i | 0 <= i < n && marks[i]| == CountTrue(marks, n)
  {
    if n > 0 {
      MarkedPlaces(marks, n - 1);
      var before, after := set i | 0 <= i < n - 1 && marks[i], set i | 0 <= i < n && marks[i];
      assert after == before + if marks[n - 1] then {n - 1} else {};
    }
  }

  /** Which events parsed, were tampered with, break the chain, or are verified. */
  ghost function ParsedMarks(events: seq<Option<Entry>>): (m: seq<bool>)
    ensures |m| == |events| && forall i {:trigger m[i]} :: 0 <= i < |m| ==> (m[i] <==> events[i].Some?)
  {
    seq(|events|, i requires 0 <= i < |events| => events[i].Some?)
  }

  ghost function TamperedMarks(digest: Digest, events: seq<Option<Entry>>): (m: seq<bool>)
    ensures |m| == |events| && forall i {:trigger m[i]} :: 0 <= i < |m| ==> (m[i] <==> TamperedAt(digest, events, i))
  {
    seq(|events|, i requires 0 <= i < |events| => TamperedAt(digest, events, i))
  }

  ghost function BrokenMarks(events: seq<Option<Entry>>): (m: seq<bool>)
    ensures |m| == |events| && forall i {:trigger m[i]} :: 0 <= i < |m| ==> (m[i] <==> BrokenAt(events, i))
  {
    seq(|events|, i requires 0 <= i < |events| => BrokenAt(events, i))
  }

  ghost function VerifiedMarks(digest: Digest, events: seq<Option<Entry>>): (m: seq<bool>)
    ensures |m| == |events| && forall i {:trigger m[i]} :: 0 <= i < |m| ==> (m[i] <==> VerifiedAt(digest, events, i))
  {
    seq(|events|, i requires 0 <= i < |events| => VerifiedAt(digest, events, i))
  }

  /** The counters count marks. */
  lemma {:induction false} EntriesCount(digest: Digest, events: seq<Option<Entry>>, n: nat)
    requires n <= |events|
    ensures |Parsed(events[..n])| == CountTrue(ParsedMarks(events), n)
    ensures CountTampered(digest, Parsed(events[..n])) == CountTrue(TamperedMarks(digest, events), n)
  {
    if n > 0 {
      EntriesCount(digest, events, n - 1);
      ParsedNext(events, n - 1);
      assert TamperedMarks(digest, events)[n - 1] <==> TamperedAt(digest, events, n - 1);
      if events[n - 1].Some? { CountsSnoc(digest, Parsed(events[..n - 1]), events[n - 1].value); }
    }
  }

  lemma {:induction false} BreaksCount(digest: Digest, events: seq<Option<Entry>>, n: nat)
    requires n <= |events|
    ensures CountBreaks(Parsed(events[..n])) == CountTrue(BrokenMarks(events), n)
  {
    if n > 0 {
      BreaksCount(digest, events, n - 1);
      ParsedNext(events, n - 1);
      assert BrokenMarks(events)[n - 1] <==> BrokenAt(events, n - 1);
      if events[n - 1].Some? { CountsSnoc(digest, Parsed(events[..n - 1]), events[n - 1].value); }
    }
  }

  lemma {:induction false} VerifiedCount(digest: Digest, events: seq<Option<Entry>>, n: nat)
    requires n <= |events|
    ensures CountVerified(digest, Parsed(events[..n])) == CountTrue(VerifiedMarks(digest, events), n)
  {
    if n > 0 {
      VerifiedCount(digest, events, n - 1);
      ParsedNext(events, n - 1);
      assert VerifiedMarks(digest, events)[n - 1] <==> VerifiedAt(digest, events, n - 1);
      if events[n - 1].Some? { CountsSnoc(digest, Parsed(events[..n - 1]), events[n - 1].value); }
    }
  }

  ghost function ParsedPlaces(events: seq<Option<Entry>>): set<int> {
    set i | 0 <= i < |events| && events[i].Some?
  }

  ghost function TamperedPlaces(digest: Digest, events: seq<Option<Entry>>): set<int> {
    set i | 0 <= i < |events| && TamperedAt(digest, events, i)
  }

  ghost function BrokenPlaces(events: seq<Option<Entry>>): set<int> {
    set i | 0 <= i < |events| && BrokenAt(events, i)
  }

  ghost function VerifiedPlaces(digest: Digest, events: seq<Option<Entry>>): set<int> {
    set i | 0 <= i < |events| && VerifiedAt(digest, events, i)
  }

  lemma ParsedPlacesCount(events: seq<Option<Entry>>)
    ensures |ParsedPlaces(events)| == CountTrue(ParsedMarks(events), |events|)
  {
    var m := ParsedMarks(events);
    MarkedPlaces(m, |events|);
    assert ParsedPlaces(events) == set i | 0 <= i < |events| && m[i];
  }

  lemma TamperedPlacesCount(digest: Digest, events: seq<Option<Entry>>)
    ensures |TamperedPlaces(digest, events)| == CountTrue(TamperedMarks(digest, events), |events|)
  {
    var m := TamperedMarks(digest, events);
    MarkedPlaces(m, |events|);
    assert TamperedPlaces(digest, events) == set i | 0 <= i < |events| && m[i];
  }

  lemma BrokenPlacesCount(events: seq<Option<Entry>>)
    ensures |BrokenPlaces(events)| == CountTrue(BrokenMarks(events), |events|)
  {
    var m := BrokenMarks(events);
    MarkedPlaces(m, |events|);
    assert BrokenPlaces(events) == set i | 0 <= i < |events| && m[i];
  }

  lemma VerifiedPlacesCount(digest: Digest, events: seq<Option<Entry>>)
    ensures |VerifiedPlaces(digest, events)| == CountTrue(VerifiedMarks(digest, events), |events|)
  {
    var m := VerifiedMarks(digest, events);
    MarkedPlaces(m, |events|);
    assert VerifiedPlaces(digest, events) == set i | 0 <= i < |events| && m[i];
  }

  /** The counters count the events they say, each once. */
  lemma CountersAreCardinalities(digest: Digest, events: seq<Option<Entry>>)
    ensures var es := Parsed(events);
      && |es| == |ParsedPlaces(events)|
      && CountTampered(digest, es) == |TamperedPlaces(digest, events)|
      && CountBreaks(es) == |BrokenPlaces(events)|
      && CountVerified(digest, es) == |VerifiedPlaces(digest, events)|
  {
    assert events[..|events|] == events;
    EntriesCount(digest, events, |events|);
    BreaksCount(digest, events, |events|);
    VerifiedCount(digest, events, |events|);
    ParsedPlacesCount(events);
    TamperedPlacesCount(digest, events);
    BrokenPlacesCount(events);
    VerifiedPlacesCount(digest, events);
  }

  /** The observed tip is the hash of the last event that parsed, or nothing. */
  lemma TipMeans(events: seq<Option<Entry>>)
    ensures forall i :: LastBefore(events, i, |events|) ==> ObservedTip(Parsed(events)) == events[i].value.hash
    ensures (forall i :: 0 <= i < |events| ==> events[i].None?) ==> ObservedTip(Parsed(events)).None?
  {
    assert events[..|events|] == events;
    forall i | LastBefore(events, i, |events|) ensures ObservedTip(Parsed(events)) == events[i].value.hash {
      LastParsed(events, i, |events|);
    }
    if Parsed(events) != [] { var i := LastExists(events, |events|); }
  }

  /** Verify a shard: the loop over whatever events parse, then the completeness check against the pin. */
  method VerifyShard(events: seq<Option<Entry>>, pin: Option<Pin>, digest: Digest) returns (r: Result)
    ensures r.total == |ParsedPlaces(events)|
    ensures r.tampered == |TamperedPlaces(digest, events)|
    ensures r.chainBreaks == |BrokenPlaces(events)|
    ensures r.verified == |VerifiedPlaces(digest, events)|
    ensures r.status == OK <==> SoundEvents(digest, events, |events|) && r.pinStatus != TipMismatch
    ensures r.status == ChainBroken <==> r.tampered == 0 && r.chainBreaks > 0
    ensures r.pinStatus == Unpinned <==> pin.None? || pin.value.lastHash.None? || pin.value.lastHash.value == ""
    ensures r.pinStatus != Unpinned ==>
              && (r.tipMismatch <==> ObservedTip(Parsed(events)) != pin.value.lastHash)
              && (r.countMismatch <==> pin.value.entryCount.Some? && r.total != pin.value.entryCount.value)
              && (r.truncated <==> pin.value.entryCount.Some? && r.total < pin.value.entryCount.value)
              && (r.pinStatus == AheadOfPin <==> pin.value.entryCount.Some? && r.total > pin.value.entryCount.value)
              && (r.pinStatus == TipMismatch <==> r.truncated || (r.tipMismatch && r.pinStatus != AheadOfPin))
    ensures r.pinStatus == Unpinned ==> !r.tipMismatch && !r.countMismatch && !r.truncated
    ensures r.mismatch == if r.pinStatus != TipMismatch then None
                          else if r.truncated then Some(Truncation) else Some(TipMismatchType)
    ensures r.pinStatus == PinVerdict(Parsed(events), pin)
  {
    assert events[..|events|] == events;
    CountersAreCardinalities(digest, events);
    SoundEventsIff(digest, events, |events|);
    var es := ParseEvents(events);
    var verified, tampered, breaks := WalkChain(digest, es);
    CountersMeanSound(digest, es);
    r := ComparePin(es, pin);
    var status :=
      if tampered > 0 then Tampered
      else if breaks > 0 then ChainBroken
      else if r.pinStatus == TipMismatch then Tampered
      else OK;
    r := r.(verified := verified, tampered := tampered, chainBreaks := breaks, status := status);
  }

  /** Whatever events parse, in order. */
  method ParseEvents(events: seq<Option<Entry>>) returns (es: seq<Entry>)
    ensures es == Parsed(events)
  {
    es := [];
    for i := 0 to |events|
      invariant es == Parsed(events[..i])
    {
      ParsedNext(events, i);
      match events[i]
      case None =>
      case Some(e) => es := es + [e];
    }
    assert events[..|events|] == events;
  }

  /** The chain loop with its three counters. */
  method WalkChain(digest: Digest, es: seq<Entry>) returns (verified: nat, tampered: nat, breaks: nat)
    ensures verified == CountVerified(digest, es)
    ensures tampered == CountTampered(digest, es)
    ensures breaks == CountBreaks(es)
  {
    verified, tampered, breaks := 0, 0, 0;
    var prev := None;
    for i := 0 to |es|
      invariant prev == Carried(es[..i])
      invariant verified == CountVerified(digest, es[..i])
      invariant tampered == CountTampered(digest, es[..i])
      invariant breaks == CountBreaks(es[..i])
    {
      assert es[..i + 1] == es[..i] + [es[i]];
      CountsSnoc(digest, es[..i], es[i]);
      CarriedSnoc(es[..i], es[i]);
      var e := es[i];
      var chainOk := (prev.None? && e.prevHash.None?) || (prev.Some? && e.prevHash == prev);
      if prev.Some? && !chainOk {
        breaks := breaks + 1;
      }
      var hashOk := false;
      if !HasHash(e) {
        tampered := tampered + 1;
      } else {
        hashOk := VerifyHash(digest, Canon(e), e.hash.value);
        if !hashOk {
          tampered := tampered + 1;
        }
      }
      if chainOk && hashOk {
        verified := verified + 1;
      }
      prev := if HasHash(e) then e.hash else prev;
    }
    assert es[..|es|] == es;
  }

  /** The completeness check, as a result whose chain fields are still to be filled in. */
  method ComparePin(es: seq<Entry>, pin: Option<Pin>) returns (r: Result)
    ensures r.total == |es| && r.pinStatus == PinVerdict(es, pin)
    ensures r.pinStatus == Unpinned <==> pin.None? || pin.value.lastHash.None? || pin.value.lastHash.value == ""
    ensures r.pinStatus != Unpinned ==>
              && (r.tipMismatch <==> ObservedTip(es) != pin.value.lastHash)
              && (r.countMismatch <==> pin.value.entryCount.Some? && r.total != pin.value.entryCount.value)
              && (r.truncated <==> pin.value.entryCount.Some? && r.total < pin.value.entryCount.value)
              && (r.pinStatus == AheadOfPin <==> pin.value.entryCount.Some? && r.total > pin.value.entryCount.value)
              && (r.pinStatus == TipMismatch <==> r.truncated || (r.tipMismatch && r.pinStatus != AheadOfPin))
    ensures r.pinStatus == Unpinned ==> !r.tipMismatch && !r.countMismatch && !r.truncated
    ensures r.mismatch == if r.pinStatus != TipMismatch then None
                          else if r.truncated then Some(Truncation) else Some(TipMismatchType)
  {
    var tipMismatch, countMismatch, truncated, mismatch := false, false, false, None;
    var pinStatus := Unpinned;
    if Pinned(pin) {
      var expected := pin.value;
      tipMismatch := ObservedTip(es) != expected.lastHash;
      if expected.entryCount.Some? {
        countMismatch := |es| != expected.entryCount.value;
      }
      if expected.entryCount.Some? && |es| < expected.entryCount.value {
        truncated, mismatch, pinStatus := true, Some(Truncation), TipMismatch;
      } else if expected.entryCount.Some? && |es| > expected.entryCount.value {
        pinStatus := AheadOfPin;
      } else if tipMismatch {
        mismatch, pinStatus := Some(if countMismatch then CountMismatchType else TipMismatchType), TipMismatch;
      } else {
        pinStatus := PinnedOk;
      }
    }
    r := Result(|es|, 0, 0, 0, OK, pinStatus, tipMismatch, countMismatch, truncated, mismatch);
  }

  // ----- binding -----

  /** A verdict as the caller reads it. */
  ghost predicate Accepts(digest: Digest, es: seq<Entry>, pin: Option<Pin>) {
    Sound(digest, es) && PinVerdict(es, pin) == PinnedOk
  }

  /** A log as `append` leaves it: sound, and starting without a predecessor. */
  ghost predicate WellFormed(digest: Digest, log: seq<Entry>) {
    Sound(digest, log) && (log != [] ==> log[0].prevHash == None)
  }

  /** Same in every hashed field, in the link and in the stored hash. */
  ghost predicate SameHashed(a: Entry, b: Entry) {
    && a.sessionId == b.sessionId && a.source == b.source && a.timestamp == b.timestamp && a.content == b.content
    && (if a.metadata.Some? then a.metadata.value else map[]) == (if b.metadata.Some? then b.metadata.value else map[])
    && a.prevHash == b.prevHash && a.hash == b.hash
  }

  ghost predicate SameLog(es: seq<Entry>, log: seq<Entry>) {
    |es| == |log| && forall i :: 0 <= i < |es| ==> SameHashed(es[i], log[i])
  }

  function PinOf(log: seq<Entry>): Option<Pin> {
    Some(Pin(ObservedTip(log), Some(|log|)))
  }

  /** Equal stored hashes mean equal hashed fields. */
  lemma HashBindsEntry(digest: Digest, a: Entry, b: Entry)
    requires GoodDigest(digest) && HashOk(digest, a) && HashOk(digest, b) && a.hash == b.hash
    ensures Canon(a) == Canon(b)
  {
    var x, y := digest(Canon(a)), digest(Canon(b));
    if V1 <= a.hash.value {
      assert (V1 + x)[|V1|..] == x && (V1 + y)[|V1|..] == y;
    }
    assert Collide(digest, Canon(a), Canon(b));
  }

  /**
   Backward induction over two chains: entries that share a hash share their whole past, as far as both go, and the
   observed entry cannot sit later than its namesake in the well-formed log.
   */
  lemma {:induction false} SharedPast(digest: Digest, es: seq<Entry>, i: nat, log: seq<Entry>, j: nat)
    requires GoodDigest(digest) && Sound(digest, es) && WellFormed(digest, log)
    requires i < |es| && j < |log| && es[i].hash == log[j].hash
    ensures i <= j
    ensures SameLog(es[..i + 1], log[j - i..j + 1])
    decreases i
  {
    HashBindsEntry(digest, es[i], log[j]);
    if i > 0 {
      assert Canon(es[i]).prevHash == Canon(log[j]).prevHash;
      assert es[i].prevHash == es[i - 1].hash && HasHash(es[i - 1]);
      SharedPast(digest, es, i - 1, log, j - 1);
      SameLogExtend(es[..i], es[i], log[j - i..j], log[j]);
      assert es[..i + 1] == es[..i] + [es[i]];
      assert log[j - i..j + 1] == log[j - i..j] + [log[j]];
    }
  }

  lemma SameLogExtend(a: seq<Entry>, x: Entry, b: seq<Entry>, y: Entry)
    requires SameLog(a, b) && SameHashed(x, y)
    ensures SameLog(a + [x], b + [y])
  {
  }

  lemma SameKeepsSound(digest: Digest, es: seq<Entry>, log: seq<Entry>, from: nat)
    requires Sound(digest, log) && from + |es| == |log|
    requires forall i :: 0 <= i < |es| ==> SameHashed(es[i], log[from + i])
    ensures Sound(digest, es)
  {
    forall i | 0 <= i < |es| ensures HashOk(digest, es[i]) {
      assert HashOk(digest, log[from + i]);
    }
    forall i | 1 <= i < |es| ensures es[i].prevHash == es[i - 1].hash {
      assert SameHashed(es[i], log[from + i]) && SameHashed(es[i - 1], log[from + i - 1]);
      assert Canon(es[i]).prevHash == Canon(log[from + i]).prevHash;
      assert log[from + i].prevHash == log[from + i - 1].hash;
    }
  }

  /**
   Tamper and truncation completeness: against the pin of a well-formed log, a list is accepted as pinned exactly when
   it is that log in every hashed field, in order and in length.
   */
  lemma PinnedOkIffSameLog(digest: Digest, es: seq<Entry>, log: seq<Entry>)
    requires GoodDigest(digest) && WellFormed(digest, log) && log != []
    ensures Accepts(digest, es, PinOf(log)) <==> SameLog(es, log)
  {
    var n := |log|;
    assert HashOk(digest, log[n - 1]);
    if Accepts(digest, es, PinOf(log)) {
      SharedPast(digest, es, n - 1, log, n - 1);
      assert es[..n] == es && log[0..n] == log;
    }
    if SameLog(es, log) {
      SameKeepsSound(digest, es, log, 0);
      assert SameHashed(es[n - 1], log[n - 1]);
    }
  }

  /** No shorter list gets any OK at all, whatever it contains. */
  lemma ShorterIsNeverOk(digest: Digest, es: seq<Entry>, log: seq<Entry>)
    requires WellFormed(digest, log) && |es| < |log|
    ensures PinVerdict(es, PinOf(log)) == TipMismatch
  {
    assert HashOk(digest, log[|log| - 1]);
  }

  /**
   A legacy pin without a count binds only a suffix: losing the oldest entries goes unnoticed, and nothing else does.
   */
  lemma TipOnlyIffSuffix(digest: Digest, es: seq<Entry>, log: seq<Entry>)
    requires GoodDigest(digest) && WellFormed(digest, log) && log != []
    ensures Accepts(digest, es, Some(Pin(ObservedTip(log), None))) <==>
            0 < |es| <= |log| && SameLog(es, log[|log| - |es|..])
  {
    assert HashOk(digest, log[|log| - 1]);
    if Accepts(digest, es, Some(Pin(ObservedTip(log), None))) { TipOnlyMeansSuffix(digest, es, log); }
    if 0 < |es| <= |log| && SameLog(es, log[|log| - |es|..]) { SuffixHasTip(digest, es, log); }
  }

  lemma TipOnlyMeansSuffix(digest: Digest, es: seq<Entry>, log: seq<Entry>)
    requires GoodDigest(digest) && WellFormed(digest, log) && log != []
    requires Sound(digest, es) && es != [] && es[|es| - 1].hash == log[|log| - 1].hash
    ensures |es| <= |log| && SameLog(es, log[|log| - |es|..])
  {
    var n, m := |log|, |es|;
    SharedPast(digest, es, m - 1, log, n - 1);
    assert es[..m] == es && log[n - m..n] == log[n - m..];
  }

  lemma SuffixHasTip(digest: Digest, es: seq<Entry>, log: seq<Entry>)
    requires Sound(digest, log) && 0 < |es| <= |log| && SameLog(es, log[|log| - |es|..])
    ensures Sound(digest, es) && es[|es| - 1].hash == log[|log| - 1].hash
  {
    var n, m := |log|, |es|;
    forall i | 0 <= i < m ensures SameHashed(es[i], log[n - m + i]) {
      assert log[n - m..][i] == log[n - m + i];
    }
    SameKeepsSound(digest, es, log, n - m);
    assert SameHashed(es[m - 1], log[n - 1]);
  }

  /**
   A sound list ahead of the pin extends the pinned log exactly when it still has the pinned tip in the pinned place.
   */
  lemma AheadExtendsIffTipInPlace(digest: Digest, es: seq<Entry>, log: seq<Entry>)
    requires GoodDigest(digest) && WellFormed(digest, log) && log != []
    requires Sound(digest, es) && |es| > |log|
    ensures PinVerdict(es, PinOf(log)) == AheadOfPin
    ensures SameLog(es[..|log|], log) <==> es[|log| - 1].hash == ObservedTip(log)
  {
    var n := |log|;
    assert HashOk(digest, log[n - 1]);
    if es[n - 1].hash == ObservedTip(log) {
      SharedPast(digest, es, n - 1, log, n - 1);
      assert log[0..n] == log;
    }
    if SameLog(es[..n], log) { assert SameHashed(es[..n][n - 1], log[n - 1]); }
  }

  // ----- the writer -----

  /** `append`: the previous tip becomes `prev_hash`, and the stored hash is the computed one. */
  function Append(digest: Digest, log: seq<Entry>, e: Entry): seq<Entry> {
    var linked := e.(prevHash := ObservedTip(log));
    log + [linked.(hash := Some(V1 + digest(Canon(linked))))]
  }

  function AppendAll(digest: Digest, log: seq<Entry>, es: seq<Entry>): seq<Entry>
    decreases |es|
  {
    if es == [] then log else AppendAll(digest, Append(digest, log, es[0]), es[1..])
  }

  lemma AppendWellFormed(digest: Digest, log: seq<Entry>, e: Entry)
    requires WellFormed(digest, log)
    ensures WellFormed(digest, Append(digest, log, e))
  {
    var r := Append(digest, log, e);
    var last := r[|log|];
    assert Canon(last) == Canon(e.(prevHash := ObservedTip(log)));
    assert V1 <= last.hash.value;
    forall i | 0 <= i < |r| ensures HashOk(digest, r[i]) {
      if i < |log| { assert HashOk(digest, log[i]); }
    }
  }

  /** Every log built by appends alone is accepted against the pin that its last append left. */
  lemma {:induction false} WrittenLogsVerify(digest: Digest, log: seq<Entry>, es: seq<Entry>)
    requires WellFormed(digest, log)
    ensures WellFormed(digest, AppendAll(digest, log, es))
    ensures es != [] ==> Accepts(digest, AppendAll(digest, log, es), PinOf(AppendAll(digest, log, es)))
    decreases |es|
  {
    if es != [] {
      AppendWellFormed(digest, log, es[0]);
      WrittenLogsVerify(digest, Append(digest, log, es[0]), es[1..]);
      var built := AppendAll(digest, log, es);
      if es[1..] == [] { assert HashOk(digest, built[|built| - 1]); }
    }
  }
}
