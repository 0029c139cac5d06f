/**
 Owner policies: an append-only log, its lazy index, and the admission question it answers (src/dsm/sovereignty.py).
 */
module Sovereignty {
  import opened Common

  datatype Policy = Policy(
    agents: seq<string>, minTrust: real, trustBaseline: real, allowedTypes: seq<string>,
    approvalRequired: seq<string>, crossAi: bool)

  datatype PolicyEvent =
    | SetPolicy(owner: string, policy: Policy, setAt: int, entryHash: string)
    | RevokePolicy(owner: string)

  datatype Record = Record(policy: Policy, setAt: int, entryHash: string, revoked: bool)

  type Index = map<string, Record>

  /** How many policy entries a replay reads. */
  const READ_CAP: nat := 1_000_000

  // ----- validation -----

  predicate Blank(s: string) {
    forall c :: c in s ==> IsSpace(c)
  }

  predicate NonEmptyNames(names: seq<string>) {
    names != [] && forall n :: n in names ==> !Blank(n)
  }

  predicate ValidPolicy(p: Policy) {
    && NonEmptyNames(p.agents) && NonEmptyNames(p.allowedTypes)
    && 0.0 <= p.minTrust <= 1.0 && 0.0 <= p.trustBaseline <= 1.0
  }

  // ----- replay -----

  /** One event folded into the index. Events without an owner are skipped; revoking an unknown owner does nothing. */
  function Apply(index: Index, e: PolicyEvent): Index {
    if e.owner == "" then index
    else match e
      case SetPolicy(owner, policy, setAt, hash) => index[owner := Record(policy, setAt, hash, false)]
      case RevokePolicy(owner) => if owner in index then index[owner := index[owner].(revoked := true)] else index
  }

  function Replay(log: seq<PolicyEvent>): Index {
    if log == [] then map[] else Apply(Replay(log[..|log| - 1]), log[|log| - 1])
  }

  /** The active policy: present and not revoked. */
  function Get(index: Index, owner: string): Option<Record> {
    if owner in index && !index[owner].revoked then Some(index[owner]) else None
  }

  /** An owner's last word. */
  function LastEvent(log: seq<PolicyEvent>, owner: string): Option<PolicyEvent> {
    if log == [] then None
    else if log[|log| - 1].owner == owner then Some(log[|log| - 1])
    else LastEvent(log[..|log| - 1], owner)
  }

  /**
   An owner's policy is active exactly when the owner's last event is a set, and then it is that event's policy. The
   empty owner never has one.
   */
  lemma {:induction false} ActiveIffLastIsSet(log: seq<PolicyEvent>, owner: string)
    ensures owner == "" ==> Get(Replay(log), owner).None? && owner !in Replay(log)
    ensures owner != "" ==>
              var last := LastEvent(log, owner);
              && (Get(Replay(log), owner).Some? <==> last.Some? && last.value.SetPolicy?)
              && (Get(Replay(log), owner).Some? ==>
                    Get(Replay(log), owner).value ==
                    Record(last.value.policy, last.value.setAt, last.value.entryHash, false))
  {
    if log != [] {
      ActiveIffLastIsSet(log[..|log| - 1], owner);
    }
  }

  // ----- the read cap -----

  /** The part of the log a replay reads. */
  function Seen(log: seq<PolicyEvent>): seq<PolicyEvent> {
    Newest(log, READ_CAP)
  }

  /** The owner's policy was set so long ago that a replay no longer reads it, and nothing was said since. */
  predicate Outdated(log: seq<PolicyEvent>, owner: string) {
    && owner != "" && LastEvent(Seen(log), owner).None?
    && LastEvent(log, owner).Some? && LastEvent(log, owner).value.SetPolicy?
  }

  lemma {:induction false} LastOfSuffix(log: seq<PolicyEvent>, n: nat, owner: string)
    requires n <= |log|
    ensures LastEvent(log[n..], owner).Some? ==> LastEvent(log, owner) == LastEvent(log[n..], owner)
  {
    if n < |log| {
      assert log[n..][|log| - n - 1] == log[|log| - 1] && log[n..][..|log| - n - 1] == log[..|log| - 1][n..];
      LastOfSuffix(log[..|log| - 1], n, owner);
    }
  }

  lemma SuffixAgreesIff(log: seq<PolicyEvent>, n: nat, tail: seq<PolicyEvent>, owner: string)
    requires n <= |log| && tail == log[n..] && owner != ""
    ensures Get(Replay(tail), owner).Some? ==> Get(Replay(log), owner) == Get(Replay(tail), owner)
    ensures Get(Replay(tail), owner) == Get(Replay(log), owner) <==>
            !(LastEvent(tail, owner).None? && LastEvent(log, owner).Some? && LastEvent(log, owner).value.SetPolicy?)
  {
    ActiveIffLastIsSet(log, owner);
    ActiveIffLastIsSet(tail, owner);
    LastOfSuffix(log, n, owner);
  }

  /**
   The capped index never grants a policy the whole log does not, and it agrees with the whole log exactly for the
   owners whose policy is not outdated.
   */
  lemma CappedIndexAgreesIff(log: seq<PolicyEvent>, owner: string)
    ensures Get(Replay(Seen(log)), owner).Some? ==> Get(Replay(log), owner) == Get(Replay(Seen(log)), owner)
    ensures Get(Replay(Seen(log)), owner) == Get(Replay(log), owner) <==> !Outdated(log, owner)
    ensures |log| <= READ_CAP ==> !Outdated(log, owner)
  {
    if owner == "" {
      ActiveIffLastIsSet(log, owner);
      ActiveIffLastIsSet(Seen(log), owner);
    } else {
      SuffixAgreesIff(log, |log| - |Seen(log)|, Seen(log), owner);
    }
  }

  /** Events about others do not change an owner's last word. */
  lemma {:induction false} OthersDoNotMatter(log: seq<PolicyEvent>, more: seq<PolicyEvent>, owner: string)
    requires forall e :: e in more ==> e.owner != owner
    ensures LastEvent(log + more, owner) == LastEvent(log, owner)
    decreases |more|
  {
    if more == [] {
      assert log + more == log;
    } else {
      var front := more[..|more| - 1];
      OthersDoNotMatter(log, front, owner);
      assert (log + more)[..|log + more| - 1] == log + front && more[|more| - 1] in more;
    }
  }

  /** A policy set before a million events about others is active in the log and unknown to the index. */
  lemma OldPolicyIsForgotten(policy: Policy)
    ensures var log := [SetPolicy("owner", policy, 0, "h")] + seq(READ_CAP, _ => RevokePolicy("other"));
      Get(Replay(log), "owner").Some? && Get(Replay(Seen(log)), "owner").None?
  {
    var first, rest := [SetPolicy("owner", policy, 0, "h")], seq(READ_CAP, _ => RevokePolicy("other"));
    OthersDoNotMatter(first, rest, "owner");
    OthersDoNotMatter([], rest, "owner");
    assert [] + rest == rest && (first + rest)[1..] == rest;
    ActiveIffLastIsSet(first + rest, "owner");
    CappedIndexAgreesIff(first + rest, "owner");
  }

  lemma SeenEndsWith(log: seq<PolicyEvent>, e: PolicyEvent)
    ensures e.owner != "" ==> LastEvent(Seen(log + [e]), e.owner) == Some(e)
  {
    var seen := Seen(log + [e]);
    assert seen[|seen| - 1] == e;
  }

  // ----- the question -----

  datatype Verdict = Allow | Deny | PendingApproval

  datatype Enforcement = Enforcement(verdict: Verdict, reason: string)

  /** What the identity registry knows about an agent: a trust score, and a model name if one is registered. */
  datatype Identity = Identity(trust: real, model: Option<string>)

  /** The agent is registered under another model than the one it contributes as. */
  predicate CrossAiConflict(id: Identity, agentModel: Option<string>) {
    && agentModel.Some? && agentModel.value != ""
    && id.model.Some? && id.model.value != "" && id.model != agentModel
  }

  function Allows(
    active: Option<Record>, agent: string, entryType: string, id: Identity, agentModel: Option<string>): Enforcement {
    if active.None? then Enforcement(Deny, "no_policy")
    else
      var p := active.value.policy;
      if agent !in p.agents then Enforcement(Deny, "not_whitelisted")
      else if id.trust < p.minTrust then Enforcement(Deny, "low_trust")
      else if entryType !in p.allowedTypes then Enforcement(Deny, "type_forbidden")
      else if !p.crossAi && CrossAiConflict(id, agentModel) then Enforcement(Deny, "cross_ai_denied")
      else if entryType in p.approvalRequired then Enforcement(PendingApproval, "approval required")
      else Enforcement(Allow, "")
  }

  /** The three answers, each exactly when; a type that needs approval is neither allowed nor denied. */
  lemma AllowsMeans(active: Option<Record>, agent: string, entryType: string, id: Identity, agentModel: Option<string>)
    ensures var v := Allows(active, agent, entryType, id, agentModel).verdict;
      var clear := active.Some? && agent in active.value.policy.agents && id.trust >= active.value.policy.minTrust &&
                   entryType in active.value.policy.allowedTypes &&
                   (active.value.policy.crossAi || agentModel.None? || agentModel.value == "" ||
                    id.model.None? || id.model.value == "" || id.model == agentModel);
      && (v == Deny <==> !clear)
      && (v == PendingApproval <==> clear && entryType in active.value.policy.approvalRequired)
    ensures Allows(active, agent, entryType, id, agentModel).reason ==
            if active.None? then "no_policy"
            else if agent !in active.value.policy.agents then "not_whitelisted"
            else if id.trust < active.value.policy.minTrust then "low_trust"
            else if entryType !in active.value.policy.allowedTypes then "type_forbidden"
            else if !active.value.policy.crossAi && CrossAiConflict(id, agentModel) then "cross_ai_denied"
            else if entryType in active.value.policy.approvalRequired then "approval required" else ""
  {
  }

  class SovereigntyPolicy {
    var log: seq<PolicyEvent>
    var index: Option<Index>

    /** A cached index is the replay of the part of the log that is read. */
    ghost predicate Valid()
      reads this
    {
      index.Some? ==> index.value == Replay(Seen(log))
    }

    constructor ()
      ensures Valid() && log == []
    {
      log, index := [], None;
    }

    method EnsureIndex() returns (r: Index)
      requires Valid()
      modifies this`index
      ensures Valid() && index == Some(r) && r == Replay(Seen(log))
    {
      if index.Some? {
        return index.value;
      }
      var entries := Seen(log);
      r := map[];
      for i := 0 to |entries|
        invariant r == Replay(entries[..i])
      {
        assert entries[..i + 1][..i] == entries[..i];
        var e := entries[i];
        if e.owner == "" {
          continue;
        }
        match e
        case SetPolicy(owner, policy, setAt, hash) => r := r[owner := Record(policy, setAt, hash, false)];
        case RevokePolicy(owner) =>
          if owner in r {
            r := r[owner := r[owner].(revoked := true)];
          }
      }
      assert entries[..|entries|] == entries;
      index := Some(r);
    }

    /** Refuses an invalid policy without writing; otherwise appends and drops the index. */
    method Set(owner: string, policy: Policy, now: int, hash: string) returns (ok: bool)
      requires Valid()
      modifies this
      ensures Valid()
      ensures ok <==>
              && policy.agents != [] && (forall a :: a in policy.agents ==> exists c :: c in a && !IsSpace(c))
              && policy.allowedTypes != [] &&
                  (forall t :: t in policy.allowedTypes ==> exists c :: c in t && !IsSpace(c))
              && 0.0 <= policy.minTrust <= 1.0 && 0.0 <= policy.trustBaseline <= 1.0
      ensures log == if ok then old(log) + [SetPolicy(owner, policy, now, hash)] else old(log)
      ensures ok && owner != "" ==> Get(Replay(Seen(log)), owner) == Some(Record(policy, now, hash, false))
    {
      ok := ValidPolicy(policy);
      if ok {
        SeenEndsWith(log, SetPolicy(owner, policy, now, hash));
        log := log + [SetPolicy(owner, policy, now, hash)];
        ActiveIffLastIsSet(Seen(log), owner);
        index := None;
      }
    }

    method Revoke(owner: string)
      requires Valid()
      modifies this
      ensures Valid() && log == old(log) + [RevokePolicy(owner)]
      ensures Get(Replay(Seen(log)), owner).None?
    {
      SeenEndsWith(log, RevokePolicy(owner));
      log := log + [RevokePolicy(owner)];
      ActiveIffLastIsSet(Seen(log), owner);
      index := None;
    }

    method GetPolicy(owner: string) returns (r: Option<Record>)
      requires Valid()
      modifies this`index
      ensures Valid() && r == Get(Replay(Seen(log)), owner)
      ensures r.Some? <==>
              owner != "" && LastEvent(Seen(log), owner).Some? && LastEvent(Seen(log), owner).value.SetPolicy?
      ensures r == Get(Replay(log), owner) <==> !Outdated(log, owner)
    {
      var idx := EnsureIndex();
      ActiveIffLastIsSet(Seen(log), owner);
      CappedIndexAgreesIff(log, owner);
      r := Get(idx, owner);
    }
  }
}
