/** The agent's key history: an immutable creation chain under mutable statuses (src/dsm/signing.py). */
module KeyHistory {
  import opened Common

  datatype KeyStatus = Active | Retired | Revoked

  datatype KeyEntry = KeyEntry(
    publicKey: string, createdAt: string, status: KeyStatus, retiredAt: Option<string>, reason: Option<string>,
    prevHash: Option<string>, hash: Option<string>)

  /** The hex digest of a payload. */
  type Sha = string -> string

  ghost predicate Collide(sha: Sha, x: string, y: string) {
    sha(x) == sha(y)
  }

  /** Collision-free, and hex: no colon, and never the word written for a missing predecessor. */
  ghost predicate GoodSha(sha: Sha) {
    && (forall x, y :: Collide(sha, x, y) ==> x == y)
    && (forall x :: ':' !in sha(x) && sha(x) != NONE)
  }

  const NONE := "None"
  const MIDDLE := ":active:"

  function PrevText(prev: Option<string>): string {
    if prev.Some? then prev.value else NONE
  }

  /** The colon-joined text that is hashed: key, creation time (which has colons of its own), "active", predecessor. */
  function Payload(key: string, createdAt: string, prev: Option<string>): string {
    key + ":" + createdAt + MIDDLE + PrevText(prev)
  }

  function EntryHash(sha: Sha, key: string, createdAt: string, prev: Option<string>): string {
    sha(Payload(key, createdAt, prev))
  }

  // ----- the payload is unambiguous -----

  lemma SplitFront(a: string, x: string, b: string, y: string)
    requires ':' !in a && ':' !in b
    requires a + ":" + x == b + ":" + y
    ensures a == b && x == y
  {
    var s, t := a + ":" + x, b + ":" + y;
    assert s[|a|] == ':' && t[|b|] == ':';
    assert forall i :: 0 <= i < |a| ==> s[i] == a[i] && a[i] in a;
    assert forall i :: 0 <= i < |b| ==> t[i] == b[i] && b[i] in b;
    assert |a| == |b|;
    assert a == s[..|a|] && b == t[..|b|];
    assert x == s[|a| + 1..] && y == t[|b| + 1..];
  }

  lemma SplitBack(x: string, a: string, y: string, b: string)
    requires ':' !in a && ':' !in b
    requires x + MIDDLE + a == y + MIDDLE + b
    ensures a == b && x == y
  {
    var s, t := x + MIDDLE + a, y + MIDDLE + b;
    assert s[|s| - |a| - 1] == ':' && t[|t| - |b| - 1] == ':';
    assert forall i :: |s| - |a| <= i < |s| ==> s[i] == a[i - (|s| - |a|)] && s[i] in a;
    assert forall i :: |t| - |b| <= i < |t| ==> t[i] == b[i - (|t| - |b|)] && t[i] in b;
    assert |a| == |b|;
    assert a == s[|s| - |a|..] && b == t[|t| - |b|..];
    assert x == s[..|x|] && y == t[..|y|];
  }

  lemma PayloadParts(k: string, c: string, p: Option<string>)
    ensures Payload(k, c, p) == k + ":" + (c + MIDDLE + PrevText(p))
  {
  }

  /** The format: a missing predecessor is written as a word. */
  lemma PayloadFormat(key: string, createdAt: string, prev: string)
    ensures Payload(key, createdAt, Some(prev)) == key + ":" + createdAt + ":active:" + prev
    ensures Payload(key, createdAt, None) == key + ":" + createdAt + ":active:" + "None"
  {
  }

  /** Colon-free keys and hashes make the joined payload injective, although creation times contain colons. */
  lemma PayloadInjective(k: string, c: string, p: Option<string>, k': string, c': string, p': Option<string>)
    requires ':' !in k && ':' !in k'
    requires p.Some? ==> ':' !in p.value && p.value != NONE
    requires p'.Some? ==> ':' !in p'.value && p'.value != NONE
    requires Payload(k, c, p) == Payload(k', c', p')
    ensures k == k' && c == c' && p == p'
  {
    var x, y := c + MIDDLE + PrevText(p), c' + MIDDLE + PrevText(p');
    PayloadParts(k, c, p);
    PayloadParts(k', c', p');
    SplitFront(k, x, k', y);
    SplitBack(c, PrevText(p), c', PrevText(p'));
  }

  // ----- the chain -----

  /**
   What the verification loop carries into entry `i`: the previous stored hash, or nothing after an unhashed entry.
   */
  function PrevAt(es: seq<KeyEntry>, i: nat): Option<string>
    requires i <= |es|
  {
    if i == 0 then None else es[i - 1].hash
  }

  predicate LinkOk(sha: Sha, es: seq<KeyEntry>, i: nat)
    requires i < |es|
  {
    es[i].hash.Some? ==>
      && es[i].hash.value == EntryHash(sha, es[i].publicKey, es[i].createdAt, PrevAt(es, i))
      && es[i].prevHash == PrevAt(es, i)
  }

  ghost predicate ChainOk(sha: Sha, es: seq<KeyEntry>) {
    forall i :: 0 <= i < |es| ==> LinkOk(sha, es, i)
  }

  /** A hashed entry names the hash before it, and its own is of its key, its creation time and that hash. */
  ghost predicate Chained(sha: Sha, es: seq<KeyEntry>, i: int) {
    0 <= i < |es| &&
    (es[i].hash.Some? ==>
      var prev := if i == 0 then None else es[i - 1].hash;
      && es[i].prevHash == prev
      && es[i].hash.value == sha(es[i].publicKey + ":" + es[i].createdAt + ":active:" +
                                 if prev.Some? then prev.value else "None"))
  }

  datatype ChainReport = ChainReport(valid: bool, checked: nat)

  /** Walk the history; stop at the first bad link. Entries without a hash are skipped and reset the chain. */
  method VerifyChain(sha: Sha, es: seq<KeyEntry>) returns (r: ChainReport)
    ensures r.valid <==> ChainOk(sha, es)
    ensures r.valid <==> forall i :: 0 <= i < |es| ==> Chained(sha, es, i)
    ensures r.valid ==> r.checked == |es|
    ensures !r.valid ==> 0 < r.checked <= |es| && !LinkOk(sha, es, r.checked - 1) &&
                         forall i :: 0 <= i < r.checked - 1 ==> LinkOk(sha, es, i)
  {
    forall i | 0 <= i < |es| ensures LinkOk(sha, es, i) <==> Chained(sha, es, i) {
      PayloadFormat(es[i].publicKey, es[i].createdAt, PrevText(PrevAt(es, i)));
    }
    var prev := None;
    for i := 0 to |es|
      invariant prev == PrevAt(es, i)
      invariant forall j :: 0 <= j < i ==> LinkOk(sha, es, j)
    {
      var entry := es[i];
      var expected := EntryHash(sha, entry.publicKey, entry.createdAt, prev);
      if entry.hash.None? {
        prev := None;
        continue;
      }
      if entry.hash.value != expected || entry.prevHash != prev {
        assert !LinkOk(sha, es, i);
        return ChainReport(false, i + 1);
      }
      prev := entry.hash;
    }
    return ChainReport(true, |es|);
  }

  ghost predicate HexKeys(es: seq<KeyEntry>) {
    forall e :: e in es ==> ':' !in e.publicKey
  }

  /** How many hashed entries in a row end at `i`. */
  function HashedRun(es: seq<KeyEntry>, i: nat): (n: nat)
    requires i < |es|
    ensures n <= i + 1
  {
    if es[i].hash.None? then 0 else if i == 0 then 1 else HashedRun(es, i - 1) + 1
  }

  function Creations(es: seq<KeyEntry>): (r: seq<(string, string)>)
    ensures |r| == |es|
    ensures forall i {:trigger r[i]} :: 0 <= i < |es| ==> r[i] == (es[i].publicKey, es[i].createdAt)
  {
    seq(|es|, i requires 0 <= i < |es| => (es[i].publicKey, es[i].createdAt))
  }

  /** The creations in the hashed run ending at `i`. */
  function RunCreations(es: seq<KeyEntry>, i: nat): seq<(string, string)>
    requires i < |es|
  {
    Creations(es[i + 1 - HashedRun(es, i)..i + 1])
  }

  lemma EntryBinds(sha: Sha, a: seq<KeyEntry>, i: nat, b: seq<KeyEntry>, j: nat)
    requires GoodSha(sha) && ChainOk(sha, a) && ChainOk(sha, b) && HexKeys(a) && HexKeys(b)
    requires i < |a| && j < |b| && a[i].hash.Some? && a[i].hash == b[j].hash
    ensures a[i].publicKey == b[j].publicKey && a[i].createdAt == b[j].createdAt && PrevAt(a, i) == PrevAt(b, j)
  {
    assert LinkOk(sha, a, i) && LinkOk(sha, b, j);
    assert i > 0 ==> LinkOk(sha, a, i - 1);
    assert j > 0 ==> LinkOk(sha, b, j - 1);
    assert a[i] in a && b[j] in b;
    assert Collide(sha, Payload(a[i].publicKey, a[i].createdAt, PrevAt(a, i)),
        Payload(b[j].publicKey, b[j].createdAt, PrevAt(b, j)));
    PayloadInjective(a[i].publicKey, a[i].createdAt, PrevAt(a, i), b[j].publicKey, b[j].createdAt, PrevAt(b, j));
  }

  lemma RunStarts(es: seq<KeyEntry>, i: nat)
    requires i < |es| && es[i].hash.Some? && PrevAt(es, i).None?
    ensures HashedRun(es, i) == 1 && RunCreations(es, i) == [(es[i].publicKey, es[i].createdAt)]
  {
    assert es[i..i + 1] == [es[i]];
  }

  lemma RunExtends(es: seq<KeyEntry>, i: nat)
    requires 0 < i < |es| && es[i].hash.Some?
    ensures HashedRun(es, i) == HashedRun(es, i - 1) + 1
    ensures RunCreations(es, i) == RunCreations(es, i - 1) + [(es[i].publicKey, es[i].createdAt)]
  {
    var n := HashedRun(es, i - 1);
    var run, shorter := es[i - n..i + 1], es[i - n..i];
    assert run == shorter + [es[i]];
    CreationsSnoc(shorter, es[i]);
  }

  lemma CreationsSnoc(es: seq<KeyEntry>, e: KeyEntry)
    ensures Creations(es + [e]) == Creations(es) + [(e.publicKey, e.createdAt)]
  {
  }

  /**
   Key-history binding, for any two verifying histories: entries that share a hash end hashed runs of the same length
   with the same keys created at the same times in the same order.
   */
  lemma {:induction false} SharedRun(sha: Sha, a: seq<KeyEntry>, i: nat, b: seq<KeyEntry>, j: nat)
    requires GoodSha(sha) && ChainOk(sha, a) && ChainOk(sha, b) && HexKeys(a) && HexKeys(b)
    requires i < |a| && j < |b| && a[i].hash.Some? && a[i].hash == b[j].hash
    ensures HashedRun(a, i) == HashedRun(b, j)
    ensures RunCreations(a, i) == RunCreations(b, j)
    decreases i
  {
    EntryBinds(sha, a, i, b, j);
    if i > 0 && a[i - 1].hash.Some? {
      SharedRun(sha, a, i - 1, b, j - 1);
      RunExtends(a, i);
      RunExtends(b, j);
    } else {
      RunStarts(a, i);
      RunStarts(b, j);
    }
  }

  ghost predicate FullyHashed(es: seq<KeyEntry>) {
    forall e :: e in es ==> e.hash.Some?
  }

  lemma {:induction false} FullRun(es: seq<KeyEntry>, i: nat)
    requires i < |es| && FullyHashed(es)
    ensures HashedRun(es, i) == i + 1
  {
    assert es[i] in es;
    if i > 0 { FullRun(es, i - 1); }
  }

  /** Two fully hashed, verifying histories with one last hash record the same creations, from the first key on. */
  lemma LastHashBindsHistory(sha: Sha, a: seq<KeyEntry>, b: seq<KeyEntry>)
    requires GoodSha(sha) && ChainOk(sha, a) && ChainOk(sha, b) && HexKeys(a) && HexKeys(b)
    requires FullyHashed(a) && FullyHashed(b) && a != [] && b != []
    requires a[|a| - 1].hash == b[|b| - 1].hash
    ensures |a| == |b| && Creations(a) == Creations(b)
  {
    var i, j := |a| - 1, |b| - 1;
    assert a[i] in a;
    SharedRun(sha, a, i, b, j);
    FullRun(a, i);
    FullRun(b, j);
    assert a[0..i + 1] == a && b[0..j + 1] == b;
  }

  // ----- the status machine -----

  /** The newest active key. */
  function ActiveKey(es: seq<KeyEntry>): Option<string> {
    if es == [] then None
    else if es[|es| - 1].status == Active then Some(es[|es| - 1].publicKey)
    else ActiveKey(es[..|es| - 1])
  }

  predicate IsRevoked(es: seq<KeyEntry>, key: string) {
    exists e :: e in es && e.publicKey == key && e.status == Revoked
  }

  predicate Mentions(es: seq<KeyEntry>, key: string) {
    exists e :: e in es && e.publicKey == key
  }

  function Retire(e: KeyEntry, now: string, reason: string): KeyEntry {
    if e.status == Active then e.(status := Retired, retiredAt := Some(now), reason := Some(reason)) else e
  }

  function RevokeOne(e: KeyEntry, key: string, now: string, reason: string): KeyEntry {
    if e.publicKey == key then e.(status := Revoked, retiredAt := Some(now), reason := Some(reason)) else e
  }

  function RetireAll(es: seq<KeyEntry>, now: string, reason: string): (r: seq<KeyEntry>)
    ensures |r| == |es|
    ensures forall i {:trigger r[i]} :: 0 <= i < |es| ==> r[i] == Retire(es[i], now, reason)
  {
    seq(|es|, i requires 0 <= i < |es| => Retire(es[i], now, reason))
  }

  function Revoke(es: seq<KeyEntry>, key: string, now: string, reason: string): (r: seq<KeyEntry>)
    ensures |r| == |es|
    ensures forall i {:trigger r[i]} :: 0 <= i < |es| ==> r[i] == RevokeOne(es[i], key, now, reason)
  {
    seq(|es|, i requires 0 <= i < |es| => RevokeOne(es[i], key, now, reason))
  }

  function Record(sha: Sha, es: seq<KeyEntry>, key: string, now: string, reason: string): seq<KeyEntry> {
    if ActiveKey(es) == Some(key) then es
    else
      var prev := PrevAt(es, |es|);
      RetireAll(es, now, reason) +
      [KeyEntry(key, now, Active, None, None, prev, Some(EntryHash(sha, key, now, prev)))]
  }

  lemma RetireAllStep(es: seq<KeyEntry>, i: nat, now: string, reason: string)
    requires i < |es|
    ensures (RetireAll(es[..i], now, reason) + es[i..])[i := Retire(es[i], now, reason)] ==
            RetireAll(es[..i + 1], now, reason) + es[i + 1..]
  {
    var before, after := RetireAll(es[..i], now, reason) + es[i..], RetireAll(es[..i + 1], now, reason) + es[i + 1..];
    forall j | 0 <= j < |es| ensures before[i := Retire(es[i], now, reason)][j] == after[j] {
    }
  }

  lemma RevokeStep(es: seq<KeyEntry>, i: nat, key: string, now: string, reason: string)
    requires i < |es|
    ensures (Revoke(es[..i], key, now, reason) + es[i..])[i := RevokeOne(es[i], key, now, reason)] ==
            Revoke(es[..i + 1], key, now, reason) + es[i + 1..]
  {
    var before := Revoke(es[..i], key, now, reason) + es[i..];
    var after := Revoke(es[..i + 1], key, now, reason) + es[i + 1..];
    forall j | 0 <= j < |es| ensures before[i := RevokeOne(es[i], key, now, reason)][j] == after[j] {
    }
  }

  ghost predicate OneActive(es: seq<KeyEntry>) {
    forall i, j :: 0 <= i < j < |es| ==> !(es[i].status == Active && es[j].status == Active)
  }

  /** What every reachable history satisfies. */
  ghost predicate Lifecycle(sha: Sha, es: seq<KeyEntry>) {
    OneActive(es) && ChainOk(sha, es) && FullyHashed(es)
  }

  lemma {:induction false} ActiveKeyMeans(es: seq<KeyEntry>)
    ensures ActiveKey(es).None? <==> forall e :: e in es ==> e.status != Active
    ensures ActiveKey(es).Some? ==> exists i :: NewestActive(es, i) && es[i].publicKey == ActiveKey(es).value
  {
    if es != [] {
      var front, last := es[..|es| - 1], es[|es| - 1];
      ActiveKeyMeans(front);
      assert es == front + [last];
      if last.status == Active {
        assert NewestActive(es, |es| - 1);
      } else if ActiveKey(front).Some? {
        var i :| NewestActive(front, i) && front[i].publicKey == ActiveKey(front).value;
        assert NewestActive(es, i) && es[i].publicKey == ActiveKey(es).value;
      }
    }
  }

  /** The entry at `i` is active, and none after it is. */
  ghost predicate NewestActive(es: seq<KeyEntry>, i: int) {
    0 <= i < |es| && es[i].status == Active && forall j :: i < j < |es| ==> es[j].status != Active
  }

  /** Statuses may change without touching the chain. */
  lemma ChainIgnoresStatus(sha: Sha, es: seq<KeyEntry>, fs: seq<KeyEntry>)
    requires |es| == |fs|
    requires forall i :: 0 <= i < |es| ==>
             fs[i] == es[i].(status := fs[i].status, retiredAt := fs[i].retiredAt, reason := fs[i].reason)
    ensures ChainOk(sha, fs) <==> ChainOk(sha, es)
  {
    forall i | 0 <= i < |fs| ensures LinkOk(sha, fs, i) <==> LinkOk(sha, es, i) {
      assert fs[i].hash == es[i].hash && (i > 0 ==> fs[i - 1].hash == es[i - 1].hash);
    }
  }

  /**
   Recording a key: it becomes the active one, the chain verifies exactly when it did before, and a history whose other
   keys were not already active ends with one active entry. This holds of every history, loaded or made here.
   */
  lemma RecordKeepsLifecycle(sha: Sha, es: seq<KeyEntry>, key: string, now: string, reason: string)
    ensures ActiveKey(Record(sha, es, key, now, reason)) == Some(key)
    ensures ChainOk(sha, Record(sha, es, key, now, reason)) <==> ChainOk(sha, es)
    ensures FullyHashed(Record(sha, es, key, now, reason)) <==> FullyHashed(es)
    ensures OneActive(es) || ActiveKey(es) != Some(key) ==> OneActive(Record(sha, es, key, now, reason))
    ensures Lifecycle(sha, es) ==> Lifecycle(sha, Record(sha, es, key, now, reason))
  {
    if ActiveKey(es) != Some(key) {
      var retired, r := RetireAll(es, now, reason), Record(sha, es, key, now, reason);
      RetiredShape(es, now, reason);
      ChainIgnoresStatus(sha, es, retired);
      ChainAppend(sha, retired, r[|es|]);
      HashedAppend(retired, r[|es|]);
    }
  }

  lemma HashedAppend(es: seq<KeyEntry>, e: KeyEntry)
    requires e.hash.Some?
    ensures FullyHashed(es + [e]) <==> FullyHashed(es)
  {
    assert forall x :: x in es ==> x in es + [e];
  }

  lemma RetiredShape(es: seq<KeyEntry>, now: string, reason: string)
    ensures FullyHashed(RetireAll(es, now, reason)) <==> FullyHashed(es)
    ensures forall e :: e in RetireAll(es, now, reason) ==> e.status != Active
    ensures PrevAt(RetireAll(es, now, reason), |es|) == PrevAt(es, |es|)
  {
    var r := RetireAll(es, now, reason);
    assert forall i :: 0 <= i < |es| ==> r[i].hash == es[i].hash && r[i].status != Active;
    SameHashed(es, r);
  }

  lemma SameHashed(es: seq<KeyEntry>, fs: seq<KeyEntry>)
    requires |es| == |fs| && forall i :: 0 <= i < |es| ==> fs[i].hash == es[i].hash
    ensures FullyHashed(fs) <==> FullyHashed(es)
  {
    if FullyHashed(fs) {
      forall e | e in es ensures e.hash.Some? {
        var i :| 0 <= i < |es| && es[i] == e;
        assert fs[i] in fs;
      }
    }
    if FullyHashed(es) {
      forall e | e in fs ensures e.hash.Some? {
        var i :| 0 <= i < |fs| && fs[i] == e;
        assert es[i] in es;
      }
    }
  }

  lemma ChainAppend(sha: Sha, es: seq<KeyEntry>, e: KeyEntry)
    requires e.prevHash == PrevAt(es, |es|)
    requires e.hash == Some(EntryHash(sha, e.publicKey, e.createdAt, e.prevHash))
    ensures ChainOk(sha, es + [e]) <==> ChainOk(sha, es)
  {
    var r := es + [e];
    assert LinkOk(sha, r, |es|);
    forall i | 0 <= i < |es| ensures LinkOk(sha, r, i) <==> LinkOk(sha, es, i) {
      assert PrevAt(r, i) == PrevAt(es, i);
    }
  }

  /** Revoking touches neither the chain nor the hashes, and never makes an entry active. */
  lemma RevokeKeepsLifecycle(sha: Sha, es: seq<KeyEntry>, key: string, now: string, reason: string)
    ensures ChainOk(sha, Revoke(es, key, now, reason)) <==> ChainOk(sha, es)
    ensures FullyHashed(Revoke(es, key, now, reason)) <==> FullyHashed(es)
    ensures OneActive(es) ==> OneActive(Revoke(es, key, now, reason))
    ensures Lifecycle(sha, es) ==> Lifecycle(sha, Revoke(es, key, now, reason))
  {
    var r := Revoke(es, key, now, reason);
    ChainIgnoresStatus(sha, es, r);
    SameHashed(es, r);
    if OneActive(es) {
      forall i, j | 0 <= i < j < |r| ensures !(r[i].status == Active && r[j].status == Active) {
        assert r[i].status == Active ==> es[i].status == Active;
        assert r[j].status == Active ==> es[j].status == Active;
      }
    }
  }

  /** Recording and revoking never clear a revocation, and a revocation takes effect exactly on known keys. */
  lemma RevocationSticks(sha: Sha, es: seq<KeyEntry>, gone: string, key: string, now: string, reason: string)
    ensures IsRevoked(es, gone) ==> IsRevoked(Record(sha, es, key, now, reason), gone)
    ensures IsRevoked(Revoke(es, key, now, reason), gone) <==>
            IsRevoked(es, gone) || (gone == key && Mentions(es, key))
  {
    var rec, rev := Record(sha, es, key, now, reason), Revoke(es, key, now, reason);
    if IsRevoked(es, gone) {
      var i :| 0 <= i < |es| && es[i].publicKey == gone && es[i].status == Revoked;
      assert rec[i] == es[i] && rec[i] in rec;
      assert rev[i].publicKey == gone && rev[i].status == Revoked && rev[i] in rev;
    }
    if gone == key && Mentions(es, key) {
      var i :| 0 <= i < |es| && es[i].publicKey == key;
      assert rev[i].status == Revoked && rev[i] in rev;
    }
    if IsRevoked(rev, gone) {
      var i :| 0 <= i < |rev| && rev[i].publicKey == gone && rev[i].status == Revoked;
      assert es[i] in es;
    }
  }

  lemma MentionsStep(es: seq<KeyEntry>, i: nat, key: string)
    requires i < |es|
    ensures Mentions(es[..i + 1], key) <==> Mentions(es[..i], key) || es[i].publicKey == key
  {
    assert es[..i + 1] == es[..i] + [es[i]];
  }

  /** The entry taken out of use: a new status, when and why; everything it was created with is kept. */
  ghost predicate Withdrawn(was: KeyEntry, status: KeyStatus, now: string, reason: string, e: KeyEntry) {
    && e.status == status && e.retiredAt == Some(now) && e.reason == Some(reason)
    && e.publicKey == was.publicKey && e.createdAt == was.createdAt && e.prevHash == was.prevHash && e.hash == was.hash
  }

  /**
   What recording a key does. The newest active key again: nothing. Otherwise every active entry is retired, no other
   entry changes, and one active entry is added, chained to the hash of the last one.
   */
  ghost predicate Recorded(sha: Sha, was: seq<KeyEntry>, key: string, now: string, reason: string, es: seq<KeyEntry>) {
    if exists i :: NewestActive(was, i) && was[i].publicKey == key then es == was
    else
      && |es| == |was| + 1
      && (forall i :: 0 <= i < |was| ==>
            if was[i].status == Active then Withdrawn(was[i], Retired, now, reason, es[i]) else es[i] == was[i])
      && var prev := if was == [] then None else was[|was| - 1].hash;
         es[|was|] == KeyEntry(key, now, Active, None, None, prev, Some(sha(Payload(key, now, prev))))
  }

  lemma RecordRecords(sha: Sha, es: seq<KeyEntry>, key: string, now: string, reason: string)
    ensures Recorded(sha, es, key, now, reason, Record(sha, es, key, now, reason))
  {
    ActiveKeyMeans(es);
    forall i, j | NewestActive(es, i) && NewestActive(es, j) ensures i == j {}
    if ActiveKey(es) != Some(key) {
      var r := Record(sha, es, key, now, reason);
      forall i | 0 <= i < |es|
        ensures if es[i].status == Active then Withdrawn(es[i], Retired, now, reason, r[i]) else r[i] == es[i]
      {
        assert r[i] == RetireAll(es, now, reason)[i];
      }
    }
  }

  /** The mutable history. */
  class History {
    const sha: Sha
    var entries: seq<KeyEntry>

    /** A history as loaded: nothing is checked but the shape of each entry. */
    constructor (sha: Sha, loaded: seq<KeyEntry>)
      ensures this.sha == sha && entries == loaded
      ensures loaded == [] ==> Lifecycle(sha, entries)
    {
      this.sha := sha;
      entries := loaded;
    }

    method ActiveKeyOf() returns (key: Option<string>)
      ensures key == ActiveKey(entries)
    {
      var i := |entries|;
      assert entries[..i] == entries;
      while i > 0
        invariant 0 <= i <= |entries|
        invariant ActiveKey(entries[..i]) == ActiveKey(entries)
      {
        i := i - 1;
        assert entries[..i + 1][..i] == entries[..i];
        if entries[i].status == Active {
          return Some(entries[i].publicKey);
        }
      }
      return None;
    }

    /** Every active entry becomes retired, in place. */
    method RetireActive(now: string, reason: string)
      modifies this`entries
      ensures entries == RetireAll(old(entries), now, reason)
    {
      for i := 0 to |entries|
        invariant |entries| == |old(entries)|
        invariant entries == RetireAll(old(entries)[..i], now, reason) + old(entries)[i..]
      {
        RetireAllStep(old(entries), i, now, reason);
        var entry := entries[i];
        assert entry == old(entries)[i];
        if entry.status == Active {
          entry := entry.(status := Retired, retiredAt := Some(now), reason := Some(reason));
        }
        entries := entries[i := entry];
      }
      assert old(entries)[..|entries|] == old(entries) && old(entries)[|entries|..] == [];
    }

    method RecordKey(key: string, now: string, reason: string)
      modifies this`entries
      ensures entries == Record(sha, old(entries), key, now, reason)
      ensures ActiveKey(entries) == Some(key)
      ensures Recorded(sha, old(entries), key, now, reason, entries)
      ensures Lifecycle(sha, old(entries)) ==> Lifecycle(sha, entries)
    {
      RecordKeepsLifecycle(sha, entries, key, now, reason);
      RecordRecords(sha, entries, key, now, reason);
      var active := ActiveKeyOf();
      if active == Some(key) {
        return;
      }
      RetiredShape(entries, now, reason);
      RetireActive(now, reason);
      var prev := if |entries| == 0 then None else entries[|entries| - 1].hash;
      entries := entries + [KeyEntry(key, now, Active, None, None, prev, Some(EntryHash(sha, key, now, prev)))];
    }

    /** Every entry of the key becomes revoked, in place. */
    method RevokeMatching(key: string, now: string, reason: string) returns (found: bool)
      modifies this`entries
      ensures entries == Revoke(old(entries), key, now, reason)
      ensures found <==> Mentions(old(entries), key)
    {
      found := false;
      for i := 0 to |entries|
        invariant |entries| == |old(entries)|
        invariant entries == Revoke(old(entries)[..i], key, now, reason) + old(entries)[i..]
        invariant found <==> Mentions(old(entries)[..i], key)
      {
        RevokeStep(old(entries), i, key, now, reason);
        MentionsStep(old(entries), i, key);
        var entry := entries[i];
        assert entry == old(entries)[i];
        if entry.publicKey == key {
          entry := entry.(status := Revoked, retiredAt := Some(now), reason := Some(reason));
          found := true;
        }
        entries := entries[i := entry];
      }
      assert old(entries)[..|entries|] == old(entries) && old(entries)[|entries|..] == [];
    }

    method RevokeKey(key: string, now: string, reason: string) returns (found: bool)
      modifies this`entries
      ensures entries == Revoke(old(entries), key, now, reason)
      ensures found <==> exists i :: 0 <= i < |entries| && old(entries)[i].publicKey == key
      ensures |entries| == |old(entries)| && forall i :: 0 <= i < |entries| ==>
                if old(entries)[i].publicKey == key then Withdrawn(old(entries)[i], Revoked, now, reason, entries[i])
                else entries[i] == old(entries)[i]
      ensures found ==> IsRevoked(entries, key)
      ensures Lifecycle(sha, old(entries)) ==> Lifecycle(sha, entries)
      ensures forall k :: IsRevoked(old(entries), k) ==> IsRevoked(entries, k)
    {
      RevokeKeepsLifecycle(sha, entries, key, now, reason);
      forall k { RevocationSticks(sha, entries, k, key, now, reason); }
      found := RevokeMatching(key, now, reason);
    }
  }
}
