/** Admission to the collective: frozen rules, a decision cache and an admission quota (src/dsm/orchestrator.py). */
module Orchestrator {
  import opened Common
  import opened Sovereignty

  datatype Entry = Entry(hash: string, prevHash: string, eventType: string)

  datatype Rule = SovereigntyCheck | MinTrust(min: real) | RateLimit(max: int) | NoSelfReference

  const MAX_PER_AGENT: nat := 100
  const MIN_TRUST: real := 0.3

  const DEFAULT_RULES: seq<Rule> := [SovereigntyCheck, MinTrust(MIN_TRUST), RateLimit(MAX_PER_AGENT), NoSelfReference]
  const PERMISSIVE_RULES: seq<Rule> := [NoSelfReference]

  /** Computed once per decision; rules look at nothing else. */
  datatype Context = Context(trust: real, sovereignty: Enforcement, recentAdmissions: nat)

  predicate SelfReference(e: Entry) {
    e.prevHash != "" && e.hash != "" && e.prevHash == e.hash
  }

  predicate Passes(rule: Rule, e: Entry, ctx: Context) {
    match rule
    case SovereigntyCheck => ctx.sovereignty.verdict == Allow
    case MinTrust(min) => ctx.trust >= min
    case RateLimit(max) => ctx.recentAdmissions < max
    case NoSelfReference => !SelfReference(e)
  }

  /** The first rule that fails, if any. */
  function FirstFailure(rules: seq<Rule>, e: Entry, ctx: Context): Option<Rule> {
    if rules == [] then None
    else if !Passes(rules[0], e, ctx) then Some(rules[0])
    else FirstFailure(rules[1..], e, ctx)
  }

  datatype Result = Result(verdict: Verdict, failed: Option<Rule>, entryHash: string, agent: string, decidedAt: int)

  function Decide(rules: seq<Rule>, e: Entry, agent: string, ctx: Context, now: int): Result {
    var failed := FirstFailure(rules, e, ctx);
    var verdict := if failed.Some? then Deny
                   else if ctx.sovereignty.verdict == PendingApproval then PendingApproval
                   else Allow;
    Result(verdict, failed, e.hash, agent, now)
  }

  lemma {:induction false} NoFailureMeansAllPass(rules: seq<Rule>, e: Entry, ctx: Context)
    ensures FirstFailure(rules, e, ctx).None? <==> forall r :: r in rules ==> Passes(r, e, ctx)
  {
    if rules != [] {
      NoFailureMeansAllPass(rules[1..], e, ctx);
      assert rules == [rules[0]] + rules[1..];
    }
  }

  /** The rule reported is the first that fails: those before it pass. */
  lemma {:induction false} FirstFailureMeans(rules: seq<Rule>, e: Entry, ctx: Context) returns (i: nat)
    requires FirstFailure(rules, e, ctx).Some?
    ensures i < |rules| && FirstFailure(rules, e, ctx) == Some(rules[i]) && !Passes(rules[i], e, ctx)
    ensures forall j :: 0 <= j < i ==> Passes(rules[j], e, ctx)
  {
    i := 0;
    if Passes(rules[0], e, ctx) {
      var k := FirstFailureMeans(rules[1..], e, ctx);
      i := k + 1;
    }
  }

  // ----- the machine -----

  /** The policy log, the decision cache, the per-agent counters and the audit shard (fresh decisions, in order). */
  datatype Machine = Machine(
    policies: seq<PolicyEvent>, cache: map<string, Result>, counts: map<string, nat>, audit: seq<Result>)

  datatype Op =
    | Write(event: PolicyEvent)
    | Admit(entry: Entry, agent: string, owner: string, id: Identity, now: int)

  function CountOf(m: Machine, agent: string): nat {
    if agent in m.counts then m.counts[agent] else 0
  }

  function ContextFor(m: Machine, agent: string, owner: string, entryType: string, id: Identity): Context {
    Context(id.trust, Allows(Get(Replay(Seen(m.policies)), owner), agent, entryType, id, None), CountOf(m, agent))
  }

  predicate Cached(m: Machine, e: Entry) {
    e.hash != "" && e.hash in m.cache
  }

  function Answer(
    rules: seq<Rule>, m: Machine, e: Entry, agent: string, owner: string, id: Identity, now: int): Result {
    if Cached(m, e) then m.cache[e.hash]
    else Decide(rules, e, agent, ContextFor(m, agent, owner, e.eventType, id), now)
  }

  function AdmitStep(
    rules: seq<Rule>, m: Machine, e: Entry, agent: string, owner: string, id: Identity, now: int): Machine {
    if Cached(m, e) then m
    else
      var r := Answer(rules, m, e, agent, owner, id, now);
      Machine(
        m.policies,
        if e.hash != "" then m.cache[e.hash := r] else m.cache,
        if r.verdict == Allow then m.counts[agent := CountOf(m, agent) + 1] else m.counts,
        m.audit + [r])
  }

  function Step(rules: seq<Rule>, m: Machine, op: Op): Machine {
    match op
    case Write(event) => m.(policies := m.policies + [event])
    case Admit(e, agent, owner, id, now) => AdmitStep(rules, m, e, agent, owner, id, now)
  }

  function Run(rules: seq<Rule>, m: Machine, ops: seq<Op>): Machine
    decreases |ops|
  {
    if ops == [] then m else Run(rules, Step(rules, m, ops[0]), ops[1..])
  }

  // ----- decisions under the default rules -----

  /** Everything an admission has to satisfy. */
  ghost predicate Admissible(m: Machine, e: Entry, agent: string, owner: string, id: Identity) {
    && owner != ""
    && LastEvent(m.policies, owner).Some? && LastEvent(m.policies, owner).value.SetPolicy?
    && !Outdated(m.policies, owner)
    && var p := LastEvent(m.policies, owner).value.policy;
       && agent in p.agents
       && id.trust >= p.minTrust && id.trust >= 0.3
       && e.eventType in p.allowedTypes && e.eventType !in p.approvalRequired
       && CountOf(m, agent) < 100
       && !(e.hash != "" && e.prevHash == e.hash)
  }

  /** A fresh decision allows exactly the admissible, and under the default rules it is never left pending. */
  lemma FreshAllowIffAdmissible(m: Machine, e: Entry, agent: string, owner: string, id: Identity, now: int)
    requires !Cached(m, e)
    ensures var r := Answer(DEFAULT_RULES, m, e, agent, owner, id, now);
      && (r.verdict == Allow <==> Admissible(m, e, agent, owner, id))
      && r.verdict != PendingApproval
      && r.agent == agent && r.entryHash == e.hash && r.decidedAt == now
      && (r.verdict == Deny <==> r.failed.Some?)
  {
    var ctx := ContextFor(m, agent, owner, e.eventType, id);
    NoFailureMeansAllPass(DEFAULT_RULES, e, ctx);
    ActiveIffLastIsSet(m.policies, owner);
    CappedIndexAgreesIff(m.policies, owner);
    var rs := DEFAULT_RULES;
    assert rs[0] in rs && rs[1] in rs && rs[2] in rs && rs[3] in rs;
  }

  /** Pending is reachable only without the sovereignty rule: here under the permissive rules. */
  lemma PendingUnderPermissive(m: Machine, e: Entry, agent: string, owner: string, id: Identity, now: int)
    requires !Cached(m, e)
    ensures Answer(PERMISSIVE_RULES, m, e, agent, owner, id, now).verdict == PendingApproval <==>
            !SelfReference(e) && ContextFor(m, agent, owner, e.eventType, id).sovereignty.verdict == PendingApproval
  {
    NoFailureMeansAllPass(PERMISSIVE_RULES, e, ContextFor(m, agent, owner, e.eventType, id));
    assert PERMISSIVE_RULES[0] in PERMISSIVE_RULES;
  }

  // ----- whole runs -----

  function AllowsOf(audit: seq<Result>, agent: string): nat {
    if audit == [] then 0
    else AllowsOf(audit[..|audit| - 1], agent) +
         if audit[|audit| - 1].agent == agent && audit[|audit| - 1].verdict == Allow then 1 else 0
  }

  /** No two fresh decisions are about one non-empty hash. */
  ghost predicate DecidedOnce(audit: seq<Result>) {
    forall i, j :: 0 <= i < j < |audit| && audit[i].entryHash != "" ==> audit[i].entryHash != audit[j].entryHash
  }

  ghost predicate Inv(m: Machine) {
    && (forall a :: CountOf(m, a) == AllowsOf(m.audit, a) <= MAX_PER_AGENT)
    && (forall h :: h in m.cache ==> h != "" && m.cache[h].entryHash == h && m.cache[h] in m.audit)
    && (forall r :: r in m.audit && r.entryHash != "" ==> r.entryHash in m.cache)
    && DecidedOnce(m.audit)
  }

  lemma AuditGrows(audit: seq<Result>, r: Result, agent: string)
    ensures AllowsOf(audit + [r], agent) ==
            AllowsOf(audit, agent) + if r.agent == agent && r.verdict == Allow then 1 else 0
  {
    assert (audit + [r])[..|audit|] == audit;
  }

  lemma AdmitKeeps(m: Machine, e: Entry, agent: string, owner: string, id: Identity, now: int)
    requires Inv(m)
    ensures Inv(AdmitStep(DEFAULT_RULES, m, e, agent, owner, id, now))
  {
    if !Cached(m, e) {
      var r := Answer(DEFAULT_RULES, m, e, agent, owner, id, now);
      var next := AdmitStep(DEFAULT_RULES, m, e, agent, owner, id, now);
      FreshAllowIffAdmissible(m, e, agent, owner, id, now);
      forall a ensures CountOf(next, a) == AllowsOf(next.audit, a) <= MAX_PER_AGENT {
        AuditGrows(m.audit, r, a);
        assert CountOf(m, a) == AllowsOf(m.audit, a);
      }
      CacheKept(m, next, r);
      DecidedOnceKept(m, r);
    }
  }

  lemma DecidedOnceKept(m: Machine, r: Result)
    requires Inv(m) && (r.entryHash != "" ==> r.entryHash !in m.cache)
    ensures DecidedOnce(m.audit + [r])
  {
    var audit := m.audit + [r];
    forall i, j | 0 <= i < j < |audit| && audit[i].entryHash != "" ensures audit[i].entryHash != audit[j].entryHash {
      assert audit[i] in m.audit;
    }
  }

  lemma CacheKept(m: Machine, next: Machine, r: Result)
    requires Inv(m) && next.audit == m.audit + [r]
    requires next.cache == if r.entryHash != "" then m.cache[r.entryHash := r] else m.cache
    ensures forall h :: h in next.cache ==> h != "" && next.cache[h].entryHash == h && next.cache[h] in next.audit
    ensures forall x :: x in next.audit && x.entryHash != "" ==> x.entryHash in next.cache
  {
  }

  /**
   Admission runs: whatever policies are written and whatever is offered, no agent ever has more than 100 fresh allows,
   the counter is the number of its allows in the audit, and each non-empty hash is decided once.
   */
  lemma {:induction false} RunsKeepQuota(m: Machine, ops: seq<Op>)
    requires Inv(m)
    ensures Inv(Run(DEFAULT_RULES, m, ops))
    ensures forall a :: AllowsOf(Run(DEFAULT_RULES, m, ops).audit, a) <= 100
    decreases |ops|
  {
    if ops != [] {
      match ops[0] {
        case Write(_) =>
          var next := Step(DEFAULT_RULES, m, ops[0]);
          assert forall a :: CountOf(next, a) == CountOf(m, a);
        case Admit(e, agent, owner, id, now) => AdmitKeeps(m, e, agent, owner, id, now);
      }
      RunsKeepQuota(Step(DEFAULT_RULES, m, ops[0]), ops[1..]);
    }
  }

  /** Once decided, a non-empty hash gets the same answer for ever, from anyone, and costs no quota. */
  lemma {:induction false} DecisionsAreFinal(
    rules: seq<Rule>, m: Machine, ops: seq<Op>, e: Entry, agent: string, owner: string, id: Identity, now: int)
    requires Cached(m, e)
    ensures var end := Run(rules, m, ops);
      && Cached(end, e)
      && Answer(rules, end, e, agent, owner, id, now) == m.cache[e.hash]
      && Step(rules, end, Admit(e, agent, owner, id, now)) == end
    decreases |ops|
  {
    if ops != [] {
      DecisionsAreFinal(rules, Step(rules, m, ops[0]), ops[1..], e, agent, owner, id, now);
    }
  }

  // ----- the object -----

  class NeutralOrchestrator {
    const rules: seq<Rule>
    const policy: SovereigntyPolicy
    var cache: map<string, Result>
    var counts: map<string, nat>
    var audit: seq<Result>

    constructor (rules: seq<Rule>, policy: SovereigntyPolicy)
      ensures this.rules == rules && this.policy == policy
      ensures View() == Machine(policy.log, map[], map[], [])
    {
      this.rules, this.policy := rules, policy;
      cache, counts, audit := map[], map[], [];
    }

    function View(): Machine
      reads this, policy
    {
      Machine(policy.log, cache, counts, audit)
    }

    /** Evaluate the rules in order, stopping at the first that fails. */
    method Evaluate(e: Entry, ctx: Context) returns (failed: Option<Rule>)
      ensures failed == FirstFailure(rules, e, ctx)
    {
      for i := 0 to |rules|
        invariant FirstFailure(rules[i..], e, ctx) == FirstFailure(rules, e, ctx)
      {
        assert rules[i..][1..] == rules[i + 1..];
        if !Passes(rules[i], e, ctx) {
          return Some(rules[i]);
        }
      }
      return None;
    }

    /** Everything the rules will look at, read up front. */
    method BuildContext(agent: string, owner: string, entryType: string, id: Identity) returns (ctx: Context)
      requires policy.Valid()
      modifies policy`index
      ensures policy.Valid() && ctx == ContextFor(View(), agent, owner, entryType, id)
    {
      var active := policy.GetPolicy(owner);
      var sovereignty := Allows(active, agent, entryType, id, None);
      ctx := Context(id.trust, sovereignty, if agent in counts then counts[agent] else 0);
    }

    method AdmitEntry(e: Entry, agent: string, owner: string, id: Identity, now: int) returns (r: Result)
      requires policy.Valid()
      modifies this, policy`index
      ensures policy.Valid()
      ensures View() == AdmitStep(rules, old(View()), e, agent, owner, id, now)
      ensures r == Answer(rules, old(View()), e, agent, owner, id, now)
    {
      if e.hash != "" && e.hash in cache {
        return cache[e.hash];
      }
      var ctx := BuildContext(agent, owner, e.eventType, id);
      var failed := Evaluate(e, ctx);
      var verdict := Allow;
      if failed.Some? {
        verdict := Deny;
      }
      if verdict == Allow && ctx.sovereignty.verdict == PendingApproval {
        verdict := PendingApproval;
      }
      r := Result(verdict, failed, e.hash, agent, now);
      audit := audit + [r];
      if r.verdict == Allow {
        counts := counts[agent := (if agent in counts then counts[agent] else 0) + 1];
      }
      if e.hash != "" {
        cache := cache[e.hash := r];
      }
    }
  }
}
