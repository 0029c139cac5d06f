/** Resolution tiers and token budgets for reading the collective (src/dsm/collective.py, src/dsm/lanes.py). */
module TierBudget {
  import opened Common
  import opened Collective

  /** Estimated cost of one entry at a tier; unknown tiers cost like the full one. */
  function TierCost(tier: int): (cost: nat)
    ensures 30 <= cost <= 500
    ensures (tier == 0 ==> cost == 30) && (tier == 1 ==> cost == 80) && (tier == 2 ==> cost == 300)
    ensures tier < 0 || tier > 2 ==> cost == 500
  {
    if tier == 0 then 30 else if tier == 1 then 80 else if tier == 2 then 300 else 500
  }

  datatype TierView =
    | Reference(hash: string, agentId: string, contributedAt: int)
    | Context(hash: string, agentId: string, contributedAt: int, summary: string, actionType: string)
    | Detail(hash: string, agentId: string, contributedAt: int, summary: string, actionType: string,
             detail: string, keyFindings: seq<string>)
    | Full(hash: string, agentId: string, sourceHash: string, contentHash: string, summary: string, detail: string,
           keyFindings: seq<string>, actionType: string, agentPrevHash: string, contributedAt: int)

  function AtTier(e: CollectiveEntry, tier: int): TierView {
    var b := e.body;
    if tier <= 0 then Reference(e.hash, b.agentId, e.contributedAt)
    else if tier == 1 then Context(e.hash, b.agentId, e.contributedAt, b.summary, b.actionType)
    else if tier == 2 then Detail(e.hash, b.agentId, e.contributedAt, b.summary, b.actionType, b.detail, b.keyFindings)
    else Full(e.hash, b.agentId, b.sourceHash, b.contentHash, b.summary, b.detail, b.keyFindings, b.actionType,
              b.agentPrevHash, e.contributedAt)
  }

  /** Every tier from 1 to 3 adds to the one below without changing it. */
  lemma TiersRefine(e: CollectiveEntry, tier: int)
    ensures AtTier(e, tier).hash == e.hash && AtTier(e, tier).agentId == e.body.agentId
    ensures AtTier(e, tier).contributedAt == e.contributedAt
    ensures tier >= 1 ==> AtTier(e, tier).summary == e.body.summary && AtTier(e, tier).actionType == e.body.actionType
    ensures tier >= 2 ==> AtTier(e, tier).detail == e.body.detail && AtTier(e, tier).keyFindings == e.body.keyFindings
    ensures tier >= 3 ==> AtTier(e, tier).Full? && AtTier(e, tier).agentPrevHash == e.body.agentPrevHash &&
                          AtTier(e, tier).sourceHash == e.body.sourceHash &&
                          AtTier(e, tier).contentHash == e.body.contentHash
  {
  }

  /** All `n` entries fit the budget at `tier`. */
  predicate FitsAt(n: nat, tier: int, budget: int) {
    n * TierCost(tier) <= budget
  }

  /** The tier is the highest one not above the request at which everything fits; the floor is tier 0. */
  ghost predicate BestTier(n: nat, requested: int, budget: int, chosen: int) {
    && (requested < 0 ==> chosen == requested)
    && (requested >= 0 ==> 0 <= chosen <= requested)
    && (chosen > 0 ==> n * TierCost(chosen) <= budget)
    && (forall t :: 0 <= chosen < t <= requested ==> n * TierCost(t) > budget)
  }

  /** How many of `n` entries are shown when even the chosen tier is over budget. */
  function Shown(n: nat, chosen: int, budget: int): nat {
    if FitsAt(n, chosen, budget) then n
    else
      var room := if budget / TierCost(0) < 1 then 1 else budget / TierCost(0);
      if room < n then room else n
  }

  /** Downgrade the tier until everything fits; at tier 0 cut to the newest entries that fit, never below one. */
  method RecentAtTier(entries: seq<CollectiveEntry>, tier: int, maxTokens: Option<int>)
    returns (views: seq<TierView>, chosen: int)
    ensures maxTokens.None? ==> chosen == tier && |views| == |entries|
    ensures maxTokens.Some? && entries != [] ==>
              BestTier(|entries|, tier, maxTokens.value, chosen) && |views| == Shown(|entries|, chosen, maxTokens.value)
    ensures entries == [] ==> views == []
    ensures forall i :: 0 <= i < |views| ==> |views| <= |entries| && views[i] == AtTier(entries[i], chosen)
    ensures entries != [] ==> views != []
    ensures maxTokens.Some? && tier >= 0 && |views| > 1 ==> |views| * TierCost(chosen) <= maxTokens.value
    ensures maxTokens.Some? && |entries| * TierCost(chosen) <= maxTokens.value ==> |views| == |entries|
    ensures maxTokens.Some? && |views| < |entries| ==> (|views| + 1) * TierCost(0) > maxTokens.value
  {
    chosen := tier;
    if entries == [] {
      return [], tier;
    }
    var shown := entries;
    if maxTokens.Some? {
      var budget := maxTokens.value;
      var cost := |entries| * TierCost(tier);
      while cost > budget && chosen > 0
        invariant cost == |entries| * TierCost(chosen)
        invariant tier >= 0 ==> 0 <= chosen <= tier
        invariant tier < 0 ==> chosen == tier
        invariant forall t :: 0 <= chosen < t <= tier ==> |entries| * TierCost(t) > budget
        decreases chosen
      {
        chosen := chosen - 1;
        cost := |entries| * TierCost(chosen);
      }
      if cost > budget {
        var perEntry := TierCost(0);
        var room := if budget / perEntry < 1 then 1 else budget / perEntry;
        shown := Take(entries, room);
        CutFits(budget, room);
      }
    }
    views := seq(|shown|, i requires 0 <= i < |shown| => AtTier(shown[i], chosen));
  }

  /** A cut at tier 0 keeps the largest number of entries that fit, or one. */
  lemma CutFits(budget: int, room: nat)
    requires room == (if budget / 30 < 1 then 1 else budget / 30)
    ensures budget < (room + 1) * 30 && (room > 1 ==> room * 30 <= budget)
  {
  }

  // ----- context loading -----

  const TOKENS_PER_ENTRY: nat := 300
  const TOKENS_PER_DIGEST: nat := 80

  datatype DigestRef = DigestRef(id: string, level: int)

  datatype ContextStack = ContextStack(
    recent: seq<CollectiveEntry>, hourly: seq<DigestRef>, daily: seq<DigestRef>, weekly: seq<DigestRef>,
    totalTokens: int)

  function OfLevel(ds: seq<DigestRef>, level: int): seq<DigestRef> {
    if ds == [] then []
    else OfLevel(ds[..|ds| - 1], level) + if ds[|ds| - 1].level == level then [ds[|ds| - 1]] else []
  }

  function SinceTime(index: seq<CollectiveEntry>, since: int): seq<CollectiveEntry> {
    if index == [] then []
    else SinceTime(index[..|index| - 1], since) +
         if index[|index| - 1].contributedAt >= since then [index[|index| - 1]] else []
  }

  /** The entries from that time on, in order. */
  lemma {:induction false} SinceTimeSelects(index: seq<CollectiveEntry>, since: int) returns (places: seq<int>)
    ensures Selects(index, places, SinceTime(index, since))
    ensures forall i :: 0 <= i < |index| ==> (i in places <==> index[i].contributedAt >= since)
  {
    places := [];
    if index != [] {
      var front, last := index[..|index| - 1], index[|index| - 1];
      var before := SinceTimeSelects(front, since);
      assert index == front + [last];
      SelectsSkip(front, last, before, SinceTime(front, since));
      SelectsTake(front, last, before, SinceTime(front, since));
      places := if last.contributedAt >= since then before + [|front|] else before;
      assert last.contributedAt < since ==> SinceTime(index, since) == SinceTime(front, since);
    }
  }

  /** The digests of that level, in order. */
  lemma {:induction false} OfLevelSelects(ds: seq<DigestRef>, level: int) returns (places: seq<int>)
    ensures Selects(ds, places, OfLevel(ds, level))
    ensures forall i :: 0 <= i < |ds| ==> (i in places <==> ds[i].level == level)
  {
    places := [];
    if ds != [] {
      var front, last := ds[..|ds| - 1], ds[|ds| - 1];
      var before := OfLevelSelects(front, level);
      assert ds == front + [last];
      SelectsSkip(front, last, before, OfLevel(front, level));
      SelectsTake(front, last, before, OfLevel(front, level));
      places := if last.level == level then before + [|front|] else before;
      assert last.level != level ==> OfLevel(ds, level) == OfLevel(front, level);
    }
  }

  /**
   Fill the budget with recent entries, newest first, then with stored digests, oldest first. The digests are charged
   whatever their level, but only levels 1 to 3 are returned.
   */
  method ReadWithDigests(index: seq<CollectiveEntry>, stored: seq<DigestRef>, since: int, maxTokens: int)
    returns (stack: ContextStack, ghost used: nat)
    ensures var candidates := Reversed(SinceTime(index, since));
      && stack.recent <= candidates
      && |stack.recent| * 300 <= (if maxTokens < 0 then 0 else maxTokens)
      && (|stack.recent| < |candidates| ==> (|stack.recent| + 1) * 300 > maxTokens)
    ensures used <= |stored|
    ensures stack.hourly == OfLevel(stored[..used], 1) && stack.daily == OfLevel(stored[..used], 2) &&
            stack.weekly == OfLevel(stored[..used], 3)
    ensures stack.totalTokens == |stack.recent| * 300 + used * 80
    ensures maxTokens >= 0 ==> stack.totalTokens < maxTokens + 80
    ensures maxTokens < 0 ==> stack.totalTokens == 0
    ensures used < |stored| ==> stack.totalTokens >= maxTokens
  {
    var recentEntries := Reversed(SinceTime(index, since));
    var budget := maxTokens;
    var picked := 0;
    while picked < |recentEntries|
      invariant 0 <= picked <= |recentEntries|
      invariant budget == maxTokens - picked * TOKENS_PER_ENTRY
      invariant picked > 0 ==> budget >= 0
    {
      if budget - TOKENS_PER_ENTRY < 0 {
        break;
      }
      picked := picked + 1;
      budget := budget - TOKENS_PER_ENTRY;
    }
    var hourly: seq<DigestRef>, daily: seq<DigestRef>, weekly: seq<DigestRef> := [], [], [];
    var n := 0;
    ghost var left := budget;
    while n < |stored|
      invariant 0 <= n <= |stored|
      invariant budget == left - n * TOKENS_PER_DIGEST
      invariant n > 0 ==> budget + TOKENS_PER_DIGEST > 0
      invariant hourly == OfLevel(stored[..n], 1) && daily == OfLevel(stored[..n], 2) &&
              weekly == OfLevel(stored[..n], 3)
    {
      if budget <= 0 {
        break;
      }
      var d := stored[n];
      assert stored[..n + 1][..n] == stored[..n];
      if d.level == 1 {
        hourly := hourly + [d];
      } else if d.level == 2 {
        daily := daily + [d];
      } else if d.level == 3 {
        weekly := weekly + [d];
      }
      budget := budget - TOKENS_PER_DIGEST;
      n := n + 1;
    }
    used := n;
    stack := ContextStack(recentEntries[..picked], hourly, daily, weekly, maxTokens - budget);
  }
}
