/**
 Pushing and admission together: what the decision cache and the quota mean for what lands (src/dsm/collective.py).
 */
module AdmittedPushes {
  import opened Common
  import C = Collective
  import opened Sovereignty
  import O = Orchestrator

  /** One entry offered to a push; its hash and type are the entry's, its verdict is the orchestrator's. */
  datatype Offer = Offer(entry: O.Entry, agent: string, owner: string, id: Identity, now: int, input: C.Input)

  datatype Op = WritePolicy(event: PolicyEvent) | Push(offer: Offer)

  datatype World = World(machine: O.Machine, log: seq<C.LogEntry>)

  /** The fixed surroundings: the engine, and the text of a refusal. */
  datatype Setup = Setup(engine: C.Engine, reason: O.Result -> string)

  function AnswerTo(m: O.Machine, o: Offer): O.Result {
    O.Answer(O.DEFAULT_RULES, m, o.entry, o.agent, o.owner, o.id, o.now)
  }

  function Judged(setup: Setup, m: O.Machine, o: Offer): C.Input {
    var r := AnswerTo(m, o);
    o.input.(hash := o.entry.hash, eventType := o.entry.eventType,
             verdict := if r.verdict == Allow then None else Some(setup.reason(r)))
  }

  function Step(setup: Setup, w: World, op: Op): World {
    match op
    case WritePolicy(event) => w.(machine := O.Step(O.DEFAULT_RULES, w.machine, O.Write(event)))
    case Push(o) =>
      World(O.AdmitStep(O.DEFAULT_RULES, w.machine, o.entry, o.agent, o.owner, o.id, o.now),
            C.PushOne(setup.engine, w.log, o.agent, Judged(setup, w.machine, o)))
  }

  function Run(setup: Setup, w: World, ops: seq<Op>): World
    decreases |ops|
  {
    if ops == [] then w else Run(setup, Step(setup, w, ops[0]), ops[1..])
  }

  // ----- what lands -----

  /** The hash was decided before, and the answer was to allow it. */
  predicate AllowedBefore(m: O.Machine, e: O.Entry) {
    O.Cached(m, e) && m.cache[e.hash].verdict == Allow
  }

  /** An offer lands if and only if it can be written and was allowed before, or is undecided and admissible now. */
  lemma LandsIff(setup: Setup, w: World, o: Offer)
    ensures var next := Step(setup, w, Push(o));
      var lands := o.input.writeError.None? &&
                   (AllowedBefore(w.machine, o.entry) ||
                    (!O.Cached(w.machine, o.entry) && O.Admissible(w.machine, o.entry, o.agent, o.owner, o.id)));
      && (|next.log| == |w.log| + 1 <==> lands) && (next.log == w.log <==> !lands)
      && (lands ==> var body := next.log[|w.log|].body;
                    body.agentId == o.agent && body.sourceHash == o.entry.hash && body.actionType == o.entry.eventType)
  {
    if !O.Cached(w.machine, o.entry) {
      O.FreshAllowIffAdmissible(w.machine, o.entry, o.agent, o.owner, o.id, o.now);
    }
  }

  /** Every landed entry with a source hash was allowed once, for the agent that hash was decided for. */
  ghost predicate LandedWasAllowed(w: World) {
    forall e :: e in w.log && e.body.sourceHash != "" ==>
      e.body.sourceHash in w.machine.cache && w.machine.cache[e.body.sourceHash].verdict == Allow
  }

  ghost predicate Inv(w: World) {
    O.Inv(w.machine) && LandedWasAllowed(w)
  }

  /** A decided hash stays decided the same way. */
  lemma AdmitKeepsCache(m: O.Machine, o: Offer, h: string)
    requires h in m.cache && h != ""
    ensures var next := O.AdmitStep(O.DEFAULT_RULES, m, o.entry, o.agent, o.owner, o.id, o.now);
      h in next.cache && next.cache[h] == m.cache[h]
  {
  }

  lemma PushLanded(setup: Setup, w: World, o: Offer)
    requires LandedWasAllowed(w)
    ensures LandedWasAllowed(Step(setup, w, Push(o)))
  {
    var next := Step(setup, w, Push(o));
    LandsIff(setup, w, o);
    forall e | e in next.log && e.body.sourceHash != ""
      ensures e.body.sourceHash in next.machine.cache && next.machine.cache[e.body.sourceHash].verdict == Allow
    {
      if e in w.log {
        AdmitKeepsCache(w.machine, o, e.body.sourceHash);
      } else {
        NewestLanded(setup, w, o, e);
      }
    }
  }

  lemma NewestLanded(setup: Setup, w: World, o: Offer, e: C.LogEntry)
    requires e in Step(setup, w, Push(o)).log && e !in w.log
    ensures e.body.sourceHash == o.entry.hash && AnswerTo(w.machine, o).verdict == Allow
  {
  }

  lemma {:induction false} RunsKeepLanded(setup: Setup, w: World, ops: seq<Op>)
    requires Inv(w)
    ensures Inv(Run(setup, w, ops))
    decreases |ops|
  {
    if ops != [] {
      match ops[0] {
        case WritePolicy(event) =>
          O.RunsKeepQuota(w.machine, [O.Write(event)]);
          OneStep(w.machine, O.Write(event));
        case Push(o) =>
          O.AdmitKeeps(w.machine, o.entry, o.agent, o.owner, o.id, o.now);
          PushLanded(setup, w, o);
      }
      RunsKeepLanded(setup, Step(setup, w, ops[0]), ops[1..]);
    }
  }

  lemma OneStep(m: O.Machine, op: O.Op)
    ensures O.Run(O.DEFAULT_RULES, m, [op]) == O.Step(O.DEFAULT_RULES, m, op)
  {
    assert [op][1..] == [];
  }

  // ----- the quota, for what lands -----

  /** Hashes allowed for the agent, from the audit. */
  ghost function AllowedHashes(audit: seq<O.Result>, agent: string): set<string> {
    if audit == [] then {}
    else
      var rest, last := AllowedHashes(audit[..|audit| - 1], agent), audit[|audit| - 1];
      if last.agent == agent && last.verdict == Allow then rest + {last.entryHash} else rest
  }

  lemma {:induction false} AllowedHashesFew(audit: seq<O.Result>, agent: string)
    ensures |AllowedHashes(audit, agent)| <= O.AllowsOf(audit, agent)
  {
    if audit != [] { AllowedHashesFew(audit[..|audit| - 1], agent); }
  }

  lemma {:induction false} AllowedHashesHave(audit: seq<O.Result>, r: O.Result)
    requires r in audit && r.verdict == Allow
    ensures r.entryHash in AllowedHashes(audit, r.agent)
  {
    var front, last := audit[..|audit| - 1], audit[|audit| - 1];
    assert audit == front + [last];
    if r in front { AllowedHashesHave(front, r); }
  }

  /** Source hashes of landed entries whose admission was decided for `agent`. */
  ghost function LandedFor(w: World, agent: string): set<string> {
    set e | e in w.log && e.body.sourceHash in w.machine.cache && w.machine.cache[e.body.sourceHash].agent == agent ::
      e.body.sourceHash
  }

  /**
   Over every run from a lawful start: what landed with a source hash was allowed once, and at most 100 distinct source
   hashes ever land on the admissions of one agent.
   */
  lemma LandingsWithinQuota(setup: Setup, w: World, ops: seq<Op>, agent: string)
    requires Inv(w)
    ensures Inv(Run(setup, w, ops)) && |LandedFor(Run(setup, w, ops), agent)| <= 100
  {
    RunsKeepLanded(setup, w, ops);
    var end := Run(setup, w, ops);
    var audit := end.machine.audit;
    forall h | h in LandedFor(end, agent) ensures h in AllowedHashes(audit, agent) {
      var e :| e in end.log && e.body.sourceHash == h;
      assert h != "" && end.machine.cache[h] in audit;
      AllowedHashesHave(audit, end.machine.cache[h]);
    }
    SubsetFewer(LandedFor(end, agent), AllowedHashes(audit, agent));
    AllowedHashesFew(audit, agent);
    assert O.CountOf(end.machine, agent) == O.AllowsOf(audit, agent) <= O.MAX_PER_AGENT;
  }

  // ----- what the cache lets through -----

  /** A hash allowed once lands again, for any agent and any owner, and the machine does not notice. */
  lemma AllowedOnceLandsForAnyone(setup: Setup, w: World, o: Offer)
    requires AllowedBefore(w.machine, o.entry) && o.input.writeError.None?
    ensures var next := Step(setup, w, Push(o));
      && next.machine == w.machine && |next.log| == |w.log| + 1
      && next.log[|w.log|].body.agentId == o.agent && next.log[|w.log|].body.sourceHash == o.entry.hash
  {
    LandsIff(setup, w, o);
  }

  /** So the number of landings has no bound: `n` offers of one allowed hash land `n` times on one admission. */
  lemma {:induction false} RepeatsLandWithoutBound(setup: Setup, w: World, o: Offer, n: nat)
    requires AllowedBefore(w.machine, o.entry) && o.input.writeError.None?
    ensures var end := Run(setup, w, seq(n, _ => Push(o))); end.machine == w.machine && |end.log| == |w.log| + n
    decreases n
  {
    var ops := seq(n, _ => Push(o));
    if n > 0 {
      assert ops[1..] == seq(n - 1, _ => Push(o));
      AllowedOnceLandsForAnyone(setup, w, o);
      RepeatsLandWithoutBound(setup, Step(setup, w, ops[0]), o, n - 1);
    }
  }

  const FRIENDS_ONLY := Policy(["friend"], 0.0, 0.0, ["note"], [], true)

  lemma FriendsOnlyPolicy(m: O.Machine, entry: O.Entry)
    requires m.policies == [SetPolicy("owner", FRIENDS_ONLY, 0, "p")] && m.counts == map[] &&
             entry == O.Entry("h", "", "note")
    ensures O.Admissible(m, entry, "friend", "owner", Identity(1.0, None))
    ensures !O.Admissible(m, entry, "stranger", "owner", Identity(0.0, None))
  {
    var policies := m.policies;
    CappedIndexAgreesIff(policies, "owner");
    assert LastEvent(policies, "owner") == Some(policies[0]);
    assert FRIENDS_ONLY.agents == ["friend"] && "friend" in FRIENDS_ONLY.agents && "stranger" !in FRIENDS_ONLY.agents;
    assert "note" in FRIENDS_ONLY.allowedTypes;
  }

  /** One input: the only policy names one agent; after it pushes an entry, a stranger pushes the same one and lands. */
  lemma StrangerLands(setup: Setup, input: C.Input)
    requires input.writeError.None?
    ensures var policies := [SetPolicy("owner", FRIENDS_ONLY, 0, "p")];
      var start := World(O.Machine(policies, map[], map[], []), []);
      var entry := O.Entry("h", "", "note");
      var friend := Offer(entry, "friend", "owner", Identity(1.0, None), 0, input);
      var stranger := Offer(entry, "stranger", "owner", Identity(0.0, None), 1, input);
      var end := Step(setup, Step(setup, start, Push(friend)), Push(stranger));
      && Inv(start) && |end.log| == 2 && end.log[1].body.agentId == "stranger"
      && !O.Admissible(start.machine, entry, "stranger", "owner", stranger.id)
  {
    var policies := [SetPolicy("owner", FRIENDS_ONLY, 0, "p")];
    var m := O.Machine(policies, map[], map[], []);
    var start := World(m, []);
    var entry := O.Entry("h", "", "note");
    var friend := Offer(entry, "friend", "owner", Identity(1.0, None), 0, input);
    var stranger := Offer(entry, "stranger", "owner", Identity(0.0, None), 1, input);
    FriendsOnlyPolicy(m, entry);
    LandsIff(setup, start, friend);
    O.FreshAllowIffAdmissible(m, entry, "friend", "owner", friend.id, 0);
    var mid := Step(setup, start, Push(friend));
    assert AllowedBefore(mid.machine, entry);
    AllowedOnceLandsForAnyone(setup, mid, stranger);
  }
}
