/** Signing and verification as guards over the key history, over whole runs (src/dsm/signing.py). */
module Signing {
  import opened Common
  import opened KeyHistory
  import opened HexText

  const KEY_BYTES: nat := 32
  const SIGNATURE_BYTES: nat := 64

  /**
   The history (keys as text), the key pair on disk and the key pair loaded in memory (both by public key, as bytes).
   */
  datatype Signer = Signer(history: seq<KeyEntry>, disk: Option<Bytes>, mem: Option<Bytes>)

  datatype Outcome = NoKeypair | LoadFailed | KeyRevoked | Signed(key: Bytes)

  /** The primitive: is this a signature of the message under the key? */
  type Crypto = (Bytes, Bytes, string) -> bool

  /** `drawn` is the pair the generator would draw; `loads` says whether the stored seed decrypts. */
  datatype Op =
    | Generate(force: bool, drawn: Bytes, loads: bool, now: string, reason: string)
    | RevokeKey(key: string, now: string, reason: string)
    | Sign(loads: bool)

  function Loaded(st: Signer, loads: bool): Option<Bytes> {
    if st.mem.None? && loads then st.disk else st.mem
  }

  function SignOutcome(st: Signer, loads: bool): Outcome {
    if st.disk.None? then NoKeypair
    else
      var key := Loaded(st, loads);
      if key.None? then LoadFailed
      else if IsRevoked(st.history, Hex(key.value)) then KeyRevoked
      else Signed(key.value)
  }

  /**
   The signature checks under the bytes the key text reads as; a text that does not read or has the wrong length fails.
   */
  predicate VerifySignature(crypto: Crypto, data: string, signature: string, key: string) {
    var k, sig := FromHex(key), FromHex(signature);
    k.Some? && sig.Some? && |k.value| == KEY_BYTES && |sig.value| == SIGNATURE_BYTES && crypto(k.value, sig.value, data)
  }

  /** Valid under history: the signature checks and the key, as spelled, is not revoked. */
  predicate VerifyWithHistory(crypto: Crypto, es: seq<KeyEntry>, data: string, signature: string, key: string) {
    VerifySignature(crypto, data, signature, key) && !IsRevoked(es, key)
  }

  /** Exactly what verifies: two texts that read as 32 and 64 bytes, and a check that succeeds on those. */
  lemma VerifiesIff(crypto: Crypto, data: string, signature: string, key: string)
    ensures VerifySignature(crypto, data, signature, key) <==>
            exists k: Bytes, s: Bytes :: FromHex(key) == Some(k) && FromHex(signature) == Some(s) &&
              |k| == 32 && |s| == 64 && crypto(k, s, data)
  {
  }

  function Step(sha: Sha, st: Signer, op: Op): Signer {
    match op
    case Generate(force, drawn, loads, now, reason) =>
      if st.disk.Some? && !force then
        var mem := if loads then st.disk else st.mem;
        var pub := if mem.Some? then mem.value else st.disk.value;
        st.(mem := mem, history := Record(sha, st.history, Hex(pub), now, reason))
      else
        Signer(Record(sha, st.history, Hex(drawn), now, reason), Some(drawn), Some(drawn))
    case RevokeKey(key, now, reason) =>
      var known := Mentions(st.history, key);
      var loaded := st.mem.Some? && Hex(st.mem.value) == key;
      st.(history := Revoke(st.history, key, now, reason), mem := if known && loaded then None else st.mem)
    case Sign(loads) =>
      if st.disk.None? then st else st.(mem := Loaded(st, loads))
  }

  function Run(sha: Sha, st: Signer, ops: seq<Op>): Signer
    decreases |ops|
  {
    if ops == [] then st else Run(sha, Step(sha, st, ops[0]), ops[1..])
  }

  /** From any lawful history, in every run: one active key at most, the chain verifies, everything is hashed. */
  lemma {:induction false} RunsKeepLifecycle(sha: Sha, st: Signer, ops: seq<Op>)
    requires Lifecycle(sha, st.history)
    ensures Lifecycle(sha, Run(sha, st, ops).history)
    decreases |ops|
  {
    if ops != [] {
      var next := Step(sha, st, ops[0]);
      match ops[0] {
        case Generate(force, drawn, loads, now, reason) =>
          var mem := if loads then st.disk else st.mem;
          if st.disk.Some? && !force {
            RecordKeepsLifecycle(sha, st.history, Hex(if mem.Some? then mem.value else st.disk.value), now, reason);
          } else {
            RecordKeepsLifecycle(sha, st.history, Hex(drawn), now, reason);
          }
        case RevokeKey(key, now, reason) => RevokeKeepsLifecycle(sha, st.history, key, now, reason);
        case Sign(_) =>
      }
      RunsKeepLifecycle(sha, next, ops[1..]);
    }
  }

  lemma StepKeepsRevoked(sha: Sha, st: Signer, op: Op, gone: string)
    requires IsRevoked(st.history, gone)
    ensures IsRevoked(Step(sha, st, op).history, gone)
  {
    match op
    case Generate(force, drawn, loads, now, reason) =>
      var mem := if loads then st.disk else st.mem;
      RevocationSticks(sha, st.history, gone, Hex(drawn), now, reason);
      if st.disk.Some? {
        RevocationSticks(sha, st.history, gone, Hex(if mem.Some? then mem.value else st.disk.value), now, reason);
      }
    case RevokeKey(key, now, reason) => RevocationSticks(sha, st.history, gone, key, now, reason);
    case Sign(_) =>
  }

  /**
   A revocation is final: whatever is generated, rotated, recorded again or revoked afterwards, the text stays revoked,
   no signature is ever made with the key it spells, and no signature presented under that text verifies.
   */
  lemma {:induction false} RevokedForever(sha: Sha, crypto: Crypto, st: Signer, ops: seq<Op>, gone: string)
    requires IsRevoked(st.history, gone)
    ensures var end := Run(sha, st, ops);
      && IsRevoked(end.history, gone)
      && (forall loads, key :: SignOutcome(end, loads) == Signed(key) ==> Hex(key) != gone)
      && (forall data, signature :: !VerifyWithHistory(crypto, end.history, data, signature, gone))
    decreases |ops|
  {
    if ops != [] {
      StepKeepsRevoked(sha, st, ops[0], gone);
      RevokedForever(sha, crypto, Step(sha, st, ops[0]), ops[1..], gone);
    }
  }

  // ----- signing goes on -----

  /** Recording a key revokes nothing. */
  lemma RecordRevokesNothing(sha: Sha, es: seq<KeyEntry>, key: string, now: string, reason: string, other: string)
    ensures IsRevoked(Record(sha, es, key, now, reason), other) <==> IsRevoked(es, other)
  {
    RevocationSticks(sha, es, other, key, now, reason);
    var r := Record(sha, es, key, now, reason);
    if IsRevoked(r, other) {
      var i :| 0 <= i < |r| && r[i].publicKey == other && r[i].status == Revoked;
      assert es[i] in es;
    }
  }

  /**
   A forced generation, which is what a rotation is, always gives a key that signs: after any run, the pair is the one
   drawn, and signing is refused only if that very key was revoked before.
   */
  lemma ForcedGenerationSigns(
    sha: Sha, st: Signer, ops: seq<Op>, drawn: Bytes, loads: bool, now: string, reason: string)
    ensures var before := Run(sha, st, ops);
      var end := Run(sha, before, [Generate(true, drawn, loads, now, reason)]);
      && end.disk == Some(drawn) && end.mem == Some(drawn) && ActiveKey(end.history) == Some(Hex(drawn))
      && (forall again :: SignOutcome(end, again) ==
            if IsRevoked(before.history, Hex(drawn)) then KeyRevoked else Signed(drawn))
  {
    var before, op := Run(sha, st, ops), Generate(true, drawn, loads, now, reason);
    assert [op][1..] == [];
    RecordKeepsLifecycle(sha, before.history, Hex(drawn), now, reason);
    RecordRevokesNothing(sha, before.history, Hex(drawn), now, reason, Hex(drawn));
  }

  /** Signing again with the same pair gives the same answer: signing changes nothing a later signature depends on. */
  lemma SignedStaysSigned(sha: Sha, st: Signer, loads: bool, again: bool)
    requires SignOutcome(st, loads).Signed?
    ensures SignOutcome(Step(sha, st, Sign(loads)), again) == SignOutcome(st, loads)
  {
  }

  // ----- one key, many spellings -----

  /** Every recorded key is in its recorded spelling, as every key generated here is. */
  ghost predicate Canonical(es: seq<KeyEntry>) {
    forall e :: e in es ==> FromHex(e.publicKey).Some? && e.publicKey == Hex(FromHex(e.publicKey).value)
  }

  lemma RecordKeepsCanonical(sha: Sha, es: seq<KeyEntry>, key: Bytes, now: string, reason: string)
    requires Canonical(es)
    ensures Canonical(Record(sha, es, Hex(key), now, reason))
  {
    var r := Record(sha, es, Hex(key), now, reason);
    RoundTrip(key);
    forall e | e in r ensures FromHex(e.publicKey).Some? && e.publicKey == Hex(FromHex(e.publicKey).value) {
      var i :| 0 <= i < |r| && r[i] == e;
      if i < |es| { assert es[i] in es && e.publicKey == es[i].publicKey; } else { assert e.publicKey == Hex(key); }
    }
  }

  lemma RevokeKeepsCanonical(es: seq<KeyEntry>, key: string, now: string, reason: string)
    requires Canonical(es)
    ensures Canonical(Revoke(es, key, now, reason))
  {
    var r := Revoke(es, key, now, reason);
    forall e | e in r ensures FromHex(e.publicKey).Some? && e.publicKey == Hex(FromHex(e.publicKey).value) {
      var i :| 0 <= i < |r| && r[i] == e;
      assert es[i] in es && e.publicKey == es[i].publicKey;
    }
  }

  lemma {:induction false} RunsKeepCanonical(sha: Sha, st: Signer, ops: seq<Op>)
    requires Canonical(st.history)
    ensures Canonical(Run(sha, st, ops).history)
    decreases |ops|
  {
    if ops != [] {
      match ops[0] {
        case Generate(force, drawn, loads, now, reason) =>
          var mem := if loads then st.disk else st.mem;
          if st.disk.Some? && !force {
            RecordKeepsCanonical(sha, st.history, if mem.Some? then mem.value else st.disk.value, now, reason);
          } else {
            RecordKeepsCanonical(sha, st.history, drawn, now, reason);
          }
        case RevokeKey(key, now, reason) => RevokeKeepsCanonical(st.history, key, now, reason);
        case Sign(_) =>
      }
      RunsKeepCanonical(sha, Step(sha, st, ops[0]), ops[1..]);
    }
  }

  /**
   What revocation is worth to a verifier. In every later state, a signature that checks under some text for a revoked
   key is refused if and only if the text is the recorded spelling: lower-case digits and nothing else.
   */
  lemma RefusedIffRecordedSpelling(
    sha: Sha, crypto: Crypto, st: Signer, ops: seq<Op>, gone: Bytes, data: string, signature: string, text: string)
    requires Canonical(st.history) && IsRevoked(st.history, Hex(gone))
    requires FromHex(text) == Some(gone) && VerifySignature(crypto, data, signature, text)
    ensures var end := Run(sha, st, ops);
      && (!VerifyWithHistory(crypto, end.history, data, signature, text) <==> text == Hex(gone))
      && (!VerifyWithHistory(crypto, end.history, data, signature, text) <==> Plain(text))
  {
    RevokedForever(sha, crypto, st, ops, Hex(gone));
    RunsKeepCanonical(sha, st, ops);
    CanonicalIffPlain(text);
    var end := Run(sha, st, ops);
    if IsRevoked(end.history, text) {
      var e :| e in end.history && e.publicKey == text && e.status == Revoked;
      assert e.publicKey == Hex(FromHex(e.publicKey).value);
    }
  }

  /**
   Revoking a recorded key, then anything at all: it never signs again, and its recorded spelling never verifies again.
   */
  lemma RevokeThenAnything(sha: Sha, crypto: Crypto, st: Signer, key: Bytes, now: string, reason: string, ops: seq<Op>)
    requires Mentions(st.history, Hex(key))
    ensures var end := Run(sha, st, [RevokeKey(Hex(key), now, reason)] + ops);
      && (forall loads :: SignOutcome(end, loads) != Signed(key))
      && (forall data, signature :: !VerifyWithHistory(crypto, end.history, data, signature, Hex(key)))
  {
    var first := [RevokeKey(Hex(key), now, reason)];
    var next := Step(sha, st, first[0]);
    RevocationSticks(sha, st.history, Hex(key), Hex(key), now, reason);
    assert (first + ops)[1..] == ops;
    RevokedForever(sha, crypto, next, ops, Hex(key));
  }

  /** For every revoked key there is a text under which its signatures still verify: its recorded one after a space. */
  lemma RevokedKeyVerifiesRespelled(
    sha: Sha, crypto: Crypto, st: Signer, ops: seq<Op>, gone: Bytes, data: string, signature: string)
    requires Canonical(st.history) && IsRevoked(st.history, Hex(gone))
    requires VerifySignature(crypto, data, signature, Hex(gone))
    ensures VerifyWithHistory(crypto, Run(sha, st, ops).history, data, signature, " " + Hex(gone))
  {
    LeadingSpaceReads(gone, ' ');
    RoundTrip(gone);
    RefusedIffRecordedSpelling(sha, crypto, st, ops, gone, data, signature, " " + Hex(gone));
  }

  /** One input: a signer makes a key of bytes 0xAB, revokes it, and the same key in upper case verifies. */
  lemma UpperCaseVerifies(sha: Sha, crypto: Crypto, now: string, reason: string, data: string, signature: string)
    requires FromHex(signature).Some? && |FromHex(signature).value| == SIGNATURE_BYTES
    requires crypto(Repeat(0xAB, KEY_BYTES), FromHex(signature).value, data)
    ensures var key := Repeat(0xAB, KEY_BYTES);
      var ops := [Generate(false, key, true, now, reason), RevokeKey(Hex(key), now, reason)];
      var end := Run(sha, Signer([], None, None), ops);
      && IsRevoked(end.history, Hex(key)) && FromHex(Times("AB", KEY_BYTES)) == Some(key)
      && VerifyWithHistory(crypto, end.history, data, signature, Times("AB", KEY_BYTES))
  {
    var key, text := Repeat(0xAB, KEY_BYTES), Times("AB", KEY_BYTES);
    var start := Signer([], None, None);
    var ops := [Generate(false, key, true, now, reason), RevokeKey(Hex(key), now, reason)];
    var made := Step(sha, start, ops[0]);
    var end := Step(sha, made, ops[1]);
    assert ops[1..] == [ops[1]] && ops[1..][1..] == [];
    assert Run(sha, made, [ops[1]]) == end;
    assert made.history[0].publicKey == Hex(key) && made.history[0] in made.history;
    RevocationSticks(sha, made.history, Hex(key), Hex(key), now, reason);
    RunsKeepCanonical(sha, start, ops);
    RepeatReads("AB", 0xAB, KEY_BYTES);
    assert text[0] == 'A';
    RefusedIffRecordedSpelling(sha, crypto, end, [], key, data, signature, text);
  }

  /** Rotation retires, it does not revoke: a text that was never revoked keeps verifying what it verified. */
  lemma {:induction false} RetiredStillVerifies(
    sha: Sha, crypto: Crypto, st: Signer, ops: seq<Op>, key: string, data: string, signature: string)
    requires !IsRevoked(st.history, key)
    requires forall op :: op in ops ==> op.RevokeKey? ==> op.key != key
    ensures VerifyWithHistory(crypto, Run(sha, st, ops).history, data, signature, key) <==>
            VerifySignature(crypto, data, signature, key)
    decreases |ops|
  {
    if ops != [] {
      var next := Step(sha, st, ops[0]);
      assert ops[0] in ops;
      forall e | e in next.history ensures !(e.publicKey == key && e.status == Revoked) {
        var i :| 0 <= i < |next.history| && next.history[i] == e;
        if i < |st.history| { assert st.history[i] in st.history; }
      }
      RetiredStillVerifies(sha, crypto, next, ops[1..], key, data, signature);
    }
  }

  /** The signing object. */
  class AgentSigning {
    const history: History
    var disk: Option<Bytes>
    var mem: Option<Bytes>

    ghost predicate Valid()
      reads this, history
    {
      Lifecycle(history.sha, history.entries)
    }

    function View(): Signer
      reads this, history
    {
      Signer(history.entries, disk, mem)
    }

    constructor (history: History)
      ensures this.history == history && View() == Signer(history.entries, None, None)
    {
      this.history := history;
      disk, mem := None, None;
    }

    method GenerateKeypair(force: bool, drawn: Bytes, loads: bool, now: string, reason: string) returns (pub: string)
      modifies this, history
      ensures old(Valid()) ==> Valid()
      ensures View() == Step(history.sha, old(View()), Generate(force, drawn, loads, now, reason))
      ensures ActiveKey(history.entries) == Some(pub)
      ensures force || old(disk).None? ==> disk == Some(drawn) && mem == Some(drawn) && pub == Hex(drawn)
      ensures !force && old(disk).Some? ==>
                && disk == old(disk) && mem == (if loads then old(disk) else old(mem))
                && pub == Hex(if mem.Some? then mem.value else disk.value)
      ensures Recorded(history.sha, old(history.entries), pub, now, reason, history.entries)
    {
      if disk.Some? && !force {
        mem := if loads then disk else mem;
        pub := Hex(if mem.Some? then mem.value else disk.value);
      } else {
        disk, mem, pub := Some(drawn), Some(drawn), Hex(drawn);
      }
      history.RecordKey(pub, now, reason);
    }

    method Revoke(key: string, now: string, reason: string) returns (revoked: bool)
      modifies this, history
      ensures old(Valid()) ==> Valid()
      ensures View() == Step(history.sha, old(View()), RevokeKey(key, now, reason))
      ensures revoked ==> IsRevoked(history.entries, key)
      ensures revoked <==> exists i :: 0 <= i < |history.entries| && old(history.entries)[i].publicKey == key
      ensures |history.entries| == |old(history.entries)| && forall i :: 0 <= i < |history.entries| ==>
                if old(history.entries)[i].publicKey == key
                then Withdrawn(old(history.entries)[i], Revoked, now, reason, history.entries[i])
                else history.entries[i] == old(history.entries)[i]
      ensures disk == old(disk)
      ensures mem == if revoked && old(mem).Some? && Hex(old(mem).value) == key then None else old(mem)
    {
      revoked := history.RevokeKey(key, now, reason);
      if revoked && mem.Some? && Hex(mem.value) == key {
        mem := None;
      }
    }

    method SignEntry(loads: bool) returns (outcome: Outcome)
      modifies this`mem
      ensures old(Valid()) ==> Valid()
      ensures View() == Step(history.sha, old(View()), Sign(loads))
      ensures outcome == SignOutcome(old(View()), loads)
      ensures mem == if old(disk).Some? && old(mem).None? && loads then old(disk) else old(mem)
      ensures outcome == if disk.None? then NoKeypair else if mem.None? then LoadFailed
                         else if IsRevoked(history.entries, Hex(mem.value)) then KeyRevoked else Signed(mem.value)
      ensures outcome.KeyRevoked? ==>
                exists e :: e in history.entries && e.publicKey == Hex(mem.value) && e.status == Revoked
      ensures outcome.Signed? ==>
                forall e :: e in history.entries && e.publicKey == Hex(outcome.key) ==> e.status != Revoked
      ensures outcome.Signed? ==> !IsRevoked(history.entries, Hex(outcome.key))
    {
      if disk.None? {
        return NoKeypair;
      }
      if mem.None? && loads {
        mem := disk;
      }
      if mem.None? {
        return LoadFailed;
      }
      if IsRevoked(history.entries, Hex(mem.value)) {
        return KeyRevoked;
      }
      return Signed(mem.value);
    }
  }
}
