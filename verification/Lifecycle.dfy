/** The shard lifecycle: a cached state machine over an append-only registry (src/dsm/lifecycle.py). */
module Lifecycle {
  import opened Common
  import SV = ShardVerify

  datatype ShardState = Active | Draining | Sealed | Archived

  datatype Transition = Transition(shard: string, from: ShardState, to: ShardState)

  /** How many registry entries a replay reads. */
  const READ_CAP: nat := 1_000_000

  /** The part of the registry a replay reads. */
  function Seen(log: seq<Transition>): seq<Transition> {
    Newest(log, READ_CAP)
  }

  /** The state a replay of the registry gives a shard: active until a transition says otherwise. */
  function Replay(log: seq<Transition>, shard: string): ShardState {
    if log == [] then Active
    else if log[|log| - 1].shard == shard then log[|log| - 1].to
    else Replay(log[..|log| - 1], shard)
  }

  /** A shard's own transitions, oldest first. */
  function Of(log: seq<Transition>, shard: string): seq<Transition> {
    if log == [] then []
    else Of(log[..|log| - 1], shard) + if log[|log| - 1].shard == shard then [log[|log| - 1]] else []
  }

  /** The only life a shard can have. */
  function Path(shard: string): seq<Transition> {
    [Transition(shard, Active, Draining), Transition(shard, Draining, Sealed), Transition(shard, Sealed, Archived)]
  }

  function StateAt(k: nat): ShardState
    requires k <= 3
  {
    if k == 0 then Active else if k == 1 then Draining else if k == 2 then Sealed else Archived
  }

  datatype Registry = Registry(log: seq<Transition>, cache: map<string, ShardState>)

  /** One call, with what its environment does: whether appends succeed and whether the spot check passes. */
  datatype Op =
    | Query(shard: string)
    | Drain(shard: string, writes: bool)
    | Seal(shard: string, drainWrites: bool, tipOk: bool, writes: bool)
    | Archive(shard: string, writes: bool)

  function StateOf(r: Registry, shard: string): ShardState {
    if shard in r.cache then r.cache[shard] else Replay(Seen(r.log), shard)
  }

  /** Looking a state up caches it. */
  function Looked(r: Registry, shard: string): Registry {
    r.(cache := r.cache[shard := StateOf(r, shard)])
  }

  /** `_write_transition`: append, then cache. */
  function Moved(r: Registry, shard: string, from: ShardState, to: ShardState): Registry {
    Registry(r.log + [Transition(shard, from, to)], r.cache[shard := to])
  }

  function DrainStep(r: Registry, shard: string, writes: bool): Registry {
    var r' := Looked(r, shard);
    if StateOf(r, shard) == Active && writes then Moved(r', shard, Active, Draining) else r'
  }

  function SealStep(r: Registry, shard: string, drainWrites: bool, tipOk: bool, writes: bool): Registry {
    FinishSeal(Prepared(r, shard, drainWrites), shard, tipOk && writes)
  }

  /** The first half of sealing: an active shard is drained. */
  function Prepared(r: Registry, shard: string, drainWrites: bool): Registry {
    if StateOf(r, shard) == Active then DrainStep(r, shard, drainWrites) else Looked(r, shard)
  }

  /** The second half of sealing, once the shard is draining. */
  function FinishSeal(r: Registry, shard: string, goes: bool): Registry {
    if StateOf(r, shard) == Draining && goes then Moved(r, shard, Draining, Sealed) else r
  }

  function ArchiveStep(r: Registry, shard: string, writes: bool): Registry {
    var r' := Looked(r, shard);
    if StateOf(r, shard) == Sealed && writes then Moved(r', shard, Sealed, Archived) else r'
  }

  function Step(r: Registry, op: Op): Registry {
    match op
    case Query(shard) => Looked(r, shard)
    case Drain(shard, writes) => DrainStep(r, shard, writes)
    case Seal(shard, drainWrites, tipOk, writes) => SealStep(r, shard, drainWrites, tipOk, writes)
    case Archive(shard, writes) => ArchiveStep(r, shard, writes)
  }

  function Run(r: Registry, ops: seq<Op>): Registry
    decreases |ops|
  {
    if ops == [] then r else Run(Step(r, ops[0]), ops[1..])
  }

  // ----- the invariant -----

  /** The shard's logged transitions are the first `k` of its only path, and the replay says so. */
  ghost predicate OnPath(log: seq<Transition>, shard: string) {
    Of(log, shard) <= Path(shard) && Replay(log, shard) == StateAt(|Of(log, shard)|)
  }

  ghost predicate CacheOk(r: Registry) {
    forall s :: s in r.cache ==> r.cache[s] == Replay(r.log, s)
  }

  ghost predicate Inv(r: Registry) {
    CacheOk(r) && forall s :: OnPath(r.log, s)
  }

  lemma OfAppend(log: seq<Transition>, t: Transition, shard: string)
    ensures Of(log + [t], shard) == Of(log, shard) + (if t.shard == shard then [t] else [])
    ensures Replay(log + [t], shard) == if t.shard == shard then t.to else Replay(log, shard)
  {
    assert (log + [t])[..|log|] == log;
  }

  /** A replay is decided by the shard's own last transition. */
  lemma {:induction false} ReplayIsLast(log: seq<Transition>, shard: string)
    ensures var own := Of(log, shard); Replay(log, shard) == if own == [] then Active else own[|own| - 1].to
  {
    if log != [] { ReplayIsLast(log[..|log| - 1], shard); }
  }

  lemma {:induction false} OfConcat(a: seq<Transition>, b: seq<Transition>, shard: string)
    ensures Of(a + b, shard) == Of(a, shard) + Of(b, shard)
    decreases |b|
  {
    if b == [] {
      assert a + b == a;
    } else {
      var front, last := b[..|b| - 1], b[|b| - 1];
      OfConcat(a, front, shard);
      ConcatAssoc(a, front, [last]);
      assert b == front + [last];
      OfAppend(a + front, last, shard);
      OfAppend(front, last, shard);
      ConcatAssoc(Of(a, shard), Of(front, shard), if last.shard == shard then [last] else []);
    }
  }

  // ----- the read cap -----

  /** The shard has a past, but all of it is older than what a replay reads, and nothing is cached. */
  predicate Forgotten(r: Registry, shard: string) {
    shard !in r.cache && Of(r.log, shard) != [] && Of(Seen(r.log), shard) == []
  }

  /** A looked-up state is the replay of the whole registry exactly for the shards that are not forgotten. */
  lemma StateOfMeans(r: Registry, shard: string)
    requires Inv(r)
    ensures StateOf(r, shard) == if Forgotten(r, shard) then Active else Replay(r.log, shard)
    ensures StateOf(r, shard) == Replay(r.log, shard) <==> !Forgotten(r, shard)
  {
    var past, seen := r.log[..|r.log| - |Seen(r.log)|], Seen(r.log);
    assert r.log == past + seen;
    OfConcat(past, seen, shard);
    ReplayIsLast(seen, shard);
    ReplayIsLast(r.log, shard);
    assert OnPath(r.log, shard);
  }

  /** Every shard the registry mentions is cached, as for an instance that wrote the whole registry itself. */
  ghost predicate Complete(r: Registry) {
    forall i :: 0 <= i < |r.log| ==> r.log[i].shard in r.cache
  }

  /** The read cap is not felt over the next `calls` calls: nothing is left to replay, or all of it is read. */
  ghost predicate Enough(r: Registry, calls: nat) {
    Complete(r) || |r.log| + 2 * calls <= READ_CAP
  }

  lemma {:induction false} OfAbsent(log: seq<Transition>, shard: string)
    requires forall i :: 0 <= i < |log| ==> log[i].shard != shard
    ensures Of(log, shard) == []
  {
    if log != [] { OfAbsent(log[..|log| - 1], shard); }
  }

  lemma EnoughForgetsNothing(r: Registry, shard: string)
    requires Enough(r, 0)
    ensures !Forgotten(r, shard)
  {
    if Complete(r) && shard !in r.cache { OfAbsent(r.log, shard); }
  }

  // ----- one call -----

  lemma LookedKeeps(r: Registry, shard: string)
    requires Inv(r) && !Forgotten(r, shard)
    ensures Inv(Looked(r, shard)) && StateOf(r, shard) == Replay(r.log, shard)
  {
    StateOfMeans(r, shard);
  }

  /** A shard's next transition is determined by the state it is in. */
  lemma PathExtends(log: seq<Transition>, t: Transition)
    requires OnPath(log, t.shard) && Replay(log, t.shard) == t.from && t in Path(t.shard)
    ensures OnPath(log + [t], t.shard)
  {
    OfAppend(log, t, t.shard);
    var k := |Of(log, t.shard)|;
    assert k < 3 && Path(t.shard)[k] == t;
  }

  lemma MovedKeeps(r: Registry, shard: string, from: ShardState, to: ShardState)
    requires Inv(r) && Replay(r.log, shard) == from
    requires Transition(shard, from, to) in Path(shard)
    ensures Inv(Moved(r, shard, from, to))
  {
    var t := Transition(shard, from, to);
    var r' := Moved(r, shard, from, to);
    forall s ensures OnPath(r'.log, s) {
      assert OnPath(r.log, s);
      if s == shard { PathExtends(r.log, t); } else { OfAppend(r.log, t, s); }
    }
    forall s | s in r'.cache ensures r'.cache[s] == Replay(r'.log, s) {
      OfAppend(r.log, t, s);
    }
  }

  lemma StepKeeps(r: Registry, op: Op)
    requires Inv(r) && !Forgotten(r, op.shard)
    ensures Inv(Step(r, op))
  {
    var s := op.shard;
    LookedKeeps(r, s);
    match op
    case Query(_) =>
    case Drain(_, writes) => if StateOf(r, s) == Active && writes { MovedKeeps(Looked(r, s), s, Active, Draining); }
    case Seal(_, drainWrites, tipOk, writes) =>
      if StateOf(r, s) == Active && drainWrites { MovedKeeps(Looked(r, s), s, Active, Draining); }
      var r' := Prepared(r, s, drainWrites);
      LookedKeeps(r', s);
      if StateOf(r', s) == Draining { MovedKeeps(r', s, Draining, Sealed); }
    case Archive(_, writes) => if StateOf(r, s) == Sealed && writes { MovedKeeps(Looked(r, s), s, Sealed, Archived); }
  }

  /** Calls only append, at most two entries, and leave no mentioned shard uncached. */
  lemma StepGrows(r: Registry, op: Op)
    ensures r.log <= Step(r, op).log && |Step(r, op).log| <= |r.log| + 2
    ensures Complete(r) ==> Complete(Step(r, op))
  {
  }

  // ----- a forgotten shard -----

  /** The shard's record is broken: off its path, or cached as active although it has a past. */
  ghost predicate Lost(r: Registry, shard: string) {
    || !(Of(r.log, shard) <= Path(shard))
    || (shard in r.cache && r.cache[shard] == Active && Of(r.log, shard) != [])
  }

  lemma LostIsUnlawful(r: Registry, shard: string)
    requires Lost(r, shard)
    ensures !Inv(r)
  {
    assert Inv(r) ==> OnPath(r.log, shard);
  }

  /** A second draining takes a shard off its path, and nothing brings it back. */
  lemma DrainedAgain(r: Registry, shard: string)
    requires Of(r.log, shard) != []
    ensures !(Of(Moved(r, shard, Active, Draining).log, shard) <= Path(shard))
  {
    var t := Transition(shard, Active, Draining);
    OfAppend(r.log, t, shard);
    var own, k := Of(r.log, shard), |Of(r.log, shard)|;
    assert (own + [t])[k] == t;
    assert k < 3 ==> Path(shard)[k] != t;
  }

  lemma OffPathStays(r: Registry, moved: string, from: ShardState, to: ShardState, shard: string)
    requires !(Of(r.log, shard) <= Path(shard))
    ensures !(Of(Moved(r, moved, from, to).log, shard) <= Path(shard))
  {
    OfAppend(r.log, Transition(moved, from, to), shard);
  }

  /** Any call on a shard that is taken for active although it has a past leaves it lost. */
  lemma MistakenForActive(r: Registry, op: Op)
    requires StateOf(r, op.shard) == Active && Of(r.log, op.shard) != []
    ensures Lost(Step(r, op), op.shard)
  {
    var s := op.shard;
    DrainedAgain(Looked(r, s), s);
    if op.Seal? && op.drainWrites {
      OffPathStays(Moved(Looked(r, s), s, Active, Draining), s, Draining, Sealed, s);
    }
  }

  /** The shard's cached state and transitions are the same in both. */
  ghost predicate SameRecord(r: Registry, r': Registry, shard: string) {
    && Of(r'.log, shard) == Of(r.log, shard)
    && (shard in r'.cache <==> shard in r.cache)
    && (shard in r.cache ==> r'.cache[shard] == r.cache[shard])
  }

  lemma MovedUntouched(r: Registry, moved: string, from: ShardState, to: ShardState, shard: string)
    requires moved != shard
    ensures SameRecord(r, Moved(r, moved, from, to), shard)
  {
    OfAppend(r.log, Transition(moved, from, to), shard);
  }

  lemma DrainUntouched(r: Registry, moved: string, writes: bool, shard: string)
    requires moved != shard
    ensures SameRecord(r, DrainStep(r, moved, writes), shard)
  {
    MovedUntouched(Looked(r, moved), moved, Active, Draining, shard);
  }

  /** Calls on other shards leave a shard's record alone. */
  lemma OthersUntouched(r: Registry, op: Op, shard: string)
    requires op.shard != shard
    ensures SameRecord(r, Step(r, op), shard)
  {
    match op
    case Query(_) =>
    case Drain(s, writes) => DrainUntouched(r, s, writes, shard);
    case Seal(s, drainWrites, _, _) =>
      DrainUntouched(r, s, drainWrites, shard);
      MovedUntouched(Prepared(r, s, drainWrites), s, Draining, Sealed, shard);
    case Archive(s, _) => MovedUntouched(Looked(r, s), s, Sealed, Archived, shard);
  }

  lemma OffPathStaysStep(r: Registry, op: Op, shard: string)
    requires !(Of(r.log, shard) <= Path(shard))
    ensures !(Of(Step(r, op).log, shard) <= Path(shard))
  {
    StepGrows(r, op);
    OfPrefix(r.log, Step(r, op).log, shard);
  }

  lemma LostStays(r: Registry, op: Op, shard: string)
    requires Lost(r, shard)
    ensures Lost(Step(r, op), shard)
  {
    if !(Of(r.log, shard) <= Path(shard)) {
      OffPathStaysStep(r, op, shard);
    } else if op.shard == shard {
      MistakenForActive(r, op);
    } else {
      OthersUntouched(r, op, shard);
    }
  }

  lemma {:induction false} LostForever(r: Registry, ops: seq<Op>, shard: string)
    requires Lost(r, shard)
    ensures Lost(Run(r, ops), shard)
    decreases |ops|
  {
    if ops != [] {
      LostStays(r, ops[0], shard);
      LostForever(Step(r, ops[0]), ops[1..], shard);
    }
  }

  // ----- runs -----

  /** No call of the run is about a shard that is forgotten when it is made. */
  predicate Remembered(r: Registry, ops: seq<Op>)
    decreases |ops|
  {
    ops == [] || (!Forgotten(r, ops[0].shard) && Remembered(Step(r, ops[0]), ops[1..]))
  }

  /**
   Lifecycle runs. From any lawful registry, after any calls over any shards: every cached state is the replay of the
   registry and every shard's logged transitions are a prefix of active, draining, sealed, archived, each starting where
   the last one ended, if and only if no call was about a forgotten shard.
   */
  lemma {:induction false} RunsKeepLifecycleIff(r: Registry, ops: seq<Op>)
    requires Inv(r)
    ensures Inv(Run(r, ops)) <==> Remembered(r, ops)
    decreases |ops|
  {
    if ops != [] {
      var s := ops[0].shard;
      if Forgotten(r, s) {
        StateOfMeans(r, s);
        MistakenForActive(r, ops[0]);
        LostForever(Step(r, ops[0]), ops[1..], s);
        LostIsUnlawful(Run(r, ops), s);
      } else {
        StepKeeps(r, ops[0]);
        RunsKeepLifecycleIff(Step(r, ops[0]), ops[1..]);
      }
    }
  }

  /** An instance that wrote the registry itself, or one whose registry stays within the cap, never forgets. */
  lemma {:induction false} EnoughRemembers(r: Registry, ops: seq<Op>)
    requires Enough(r, |ops|)
    ensures Remembered(r, ops)
    decreases |ops|
  {
    if ops != [] {
      EnoughForgetsNothing(r, ops[0].shard);
      StepGrows(r, ops[0]);
      EnoughRemembers(Step(r, ops[0]), ops[1..]);
    }
  }

  lemma {:induction false} RunGrows(r: Registry, ops: seq<Op>)
    ensures r.log <= Run(r, ops).log
    decreases |ops|
  {
    if ops != [] {
      StepGrows(r, ops[0]);
      RunGrows(Step(r, ops[0]), ops[1..]);
    }
  }

  lemma {:induction false} OfPrefix(log: seq<Transition>, later: seq<Transition>, shard: string)
    requires log <= later
    ensures Of(log, shard) <= Of(later, shard)
    decreases |later|
  {
    if |log| < |later| {
      var front := later[..|later| - 1];
      assert log <= front;
      OfPrefix(log, front, shard);
    } else {
      assert log == later;
    }
  }

  /** No remembered run ever takes a shard back: a state is left only forwards, and archived not at all. */
  lemma NoWayBack(r: Registry, ops: seq<Op>, shard: string)
    requires Inv(r) && Remembered(r, ops)
    ensures |Of(r.log, shard)| <= |Of(Run(r, ops).log, shard)| <= 3
    ensures Replay(r.log, shard) == Archived ==> Replay(Run(r, ops).log, shard) == Archived
  {
    RunsKeepLifecycleIff(r, ops);
    RunGrows(r, ops);
    OfPrefix(r.log, Run(r, ops).log, shard);
    assert OnPath(r.log, shard) && OnPath(Run(r, ops).log, shard);
  }

  // ----- a registry that forgets -----

  function Name(i: nat): (s: string)
    ensures |s| == i
  {
    seq(i, _ => 's')
  }

  /** A registry in which `n` shards were drained, one after the other. */
  function DrainedInTurn(n: nat): (log: seq<Transition>)
    ensures |log| == n && forall i :: 0 <= i < n ==> log[i] == Transition(Name(i), Active, Draining)
  {
    seq(n, i requires i >= 0 => Transition(Name(i), Active, Draining))
  }

  lemma DrainedInTurnSnoc(n: nat)
    ensures DrainedInTurn(n + 1) == DrainedInTurn(n) + [Transition(Name(n), Active, Draining)]
  {
  }

  /** The shard is one of the first `n` names. */
  predicate Among(n: nat, shard: string) {
    |shard| < n && shard == Name(|shard|)
  }

  lemma AmongNext(n: nat, shard: string)
    ensures Among(n + 1, shard) <==> Among(n, shard) || shard == Name(n)
    ensures !(Among(n, shard) && shard == Name(n))
  {
  }

  lemma {:induction false} DrainedInTurnOf(n: nat, shard: string)
    ensures Of(DrainedInTurn(n), shard) == if Among(n, shard) then [Transition(shard, Active, Draining)] else []
  {
    if n == 0 {
      assert DrainedInTurn(n) == [];
    } else {
      DrainedInTurnOf(n - 1, shard);
      DrainedInTurnSnoc(n - 1);
      AmongNext(n - 1, shard);
      var t := Transition(Name(n - 1), Active, Draining);
      OfAppend(DrainedInTurn(n - 1), t, shard);
      if t.shard == shard {
        assert [] + [t] == [t];
      }
    }
  }

  lemma DrainedInTurnLawful(n: nat)
    ensures Inv(Registry(DrainedInTurn(n), map[]))
  {
    forall s ensures OnPath(DrainedInTurn(n), s) {
      DrainedInTurnOf(n, s);
      ReplayIsLast(DrainedInTurn(n), s);
    }
  }

  /**
   With one drained shard more than a replay reads, an instance that loads the registry takes the first for active.
   */
  lemma FirstOfTooManyIsForgotten()
    ensures var r := Registry(DrainedInTurn(READ_CAP + 1), map[]);
      && Inv(r) && Replay(r.log, Name(0)) == Draining && StateOf(r, Name(0)) == Active
      && !Inv(Step(r, Query(Name(0))))
  {
    var n := READ_CAP + 1;
    var r := Registry(DrainedInTurn(n), map[]);
    DrainedInTurnLawful(n);
    DrainedInTurnOf(n, Name(0));
    var seen := Seen(r.log);
    forall i | 0 <= i < |seen| ensures seen[i].shard != Name(0) {
      assert seen[i] == r.log[i + 1];
    }
    OfAbsent(seen, Name(0));
    StateOfMeans(r, Name(0));
    ReplayIsLast(r.log, Name(0));
    MistakenForActive(r, Query(Name(0)));
    LostIsUnlawful(Step(r, Query(Name(0))), Name(0));
  }

  // ----- verification before sealing -----

  /** The quick check before sealing: an empty shard passes, otherwise its tip must carry a hash. */
  predicate SpotCheck(es: seq<SV.Entry>) {
    es == [] || SV.HasHash(es[|es| - 1])
  }

  /** The full chain check: the first entry whose `prev_hash` is not its predecessor's hash, if any. */
  method DeepVerify(es: seq<SV.Entry>) returns (passed: bool, breakAt: nat)
    ensures passed <==> forall i :: 1 <= i < |es| ==> es[i].prevHash == es[i - 1].hash
    ensures !passed ==> 1 <= breakAt < |es| && es[breakAt].prevHash != es[breakAt - 1].hash &&
                        forall i :: 1 <= i < breakAt ==> es[i].prevHash == es[i - 1].hash
  {
    for i := 0 to |es|
      invariant forall j :: 1 <= j < i ==> es[j].prevHash == es[j - 1].hash
    {
      if i > 0 && es[i].prevHash != es[i - 1].hash {
        return false, i;
      }
    }
    return true, 0;
  }

  datatype Outcome = Done(from: ShardState, to: ShardState) | Refused(current: ShardState) | CheckFailed | WriteFailed

  /** How sealing a draining shard ends. */
  function Finished(data: seq<SV.Entry>, writes: bool): Outcome {
    if !SpotCheck(data) then CheckFailed else if !writes then WriteFailed else Done(Draining, Sealed)
  }

  /** The registry scan, oldest entry first. */
  method ScanRegistry(entries: seq<Transition>, shard: string) returns (state: ShardState)
    ensures state == Replay(entries, shard)
  {
    state := Active;
    for i := 0 to |entries|
      invariant state == Replay(entries[..i], shard)
    {
      assert entries[..i + 1][..i] == entries[..i];
      if entries[i].shard == shard {
        state := entries[i].to;
      }
    }
    assert entries[..|entries|] == entries;
  }

  class ShardLifecycle {
    var log: seq<Transition>
    var cache: map<string, ShardState>

    /** An instance over a registry that may already have a past. */
    constructor (registry: seq<Transition>)
      ensures View() == Registry(registry, map[])
    {
      log, cache := registry, map[];
    }

    function View(): Registry
      reads this
    {
      Registry(log, cache)
    }

    method State(shard: string) returns (state: ShardState)
      modifies this`cache
      ensures View() == Step(old(View()), Query(shard))
      ensures state == StateOf(old(View()), shard) && cache == old(cache)[shard := state]
      ensures old(Inv(View())) ==> (state == Replay(log, shard) <==> !old(Forgotten(View(), shard)))
    {
      if Inv(View()) { StateOfMeans(View(), shard); }
      if shard in cache {
        assert cache == cache[shard := cache[shard]];
        return cache[shard];
      }
      state := ScanRegistry(Seen(log), shard);
      cache := cache[shard := state];
    }

    method WriteTransition(shard: string, from: ShardState, to: ShardState)
      modifies this
      ensures View() == Moved(old(View()), shard, from, to)
    {
      log := log + [Transition(shard, from, to)];
      cache := cache[shard := to];
    }

    method DrainShard(shard: string, writes: bool) returns (outcome: Outcome)
      modifies this
      ensures View() == Step(old(View()), Drain(shard, writes))
      ensures outcome == var was := StateOf(old(View()), shard);
                         if was != Active then Refused(was) else if !writes then WriteFailed else Done(Active, Draining)
      ensures log == if outcome.Done? then old(log) + [Transition(shard, Active, Draining)] else old(log)
      ensures shard in cache && cache[shard] == if outcome.Done? then Draining else StateOf(old(View()), shard)
    {
      var current := State(shard);
      if current != Active {
        return Refused(current);
      }
      if !writes {
        return WriteFailed;
      }
      WriteTransition(shard, Active, Draining);
      return Done(Active, Draining);
    }

    /** Seal, draining first when the shard is still active; the spot check sits between the two. */
    method SealShard(shard: string, data: seq<SV.Entry>, drainWrites: bool, writes: bool) returns (outcome: Outcome)
      modifies this
      ensures View() == Step(old(View()), Seal(shard, drainWrites, SpotCheck(data), writes))
      ensures outcome == var was := StateOf(old(View()), shard);
                         if was == Sealed || was == Archived then Refused(was)
                         else if was == Active && !drainWrites then WriteFailed
                         else if data != [] && (data[|data| - 1].hash.None? || data[|data| - 1].hash.value == "")
                         then CheckFailed
                         else if !writes then WriteFailed
                         else Done(Draining, Sealed)
      ensures var was := StateOf(old(View()), shard);
              var drained := if was == Active && drainWrites then [Transition(shard, Active, Draining)] else [];
              var sealed := if outcome.Done? then [Transition(shard, Draining, Sealed)] else [];
              log == old(log) + drained + sealed
      ensures outcome.Done? ==> shard in cache && cache[shard] == Sealed
    {
      var ready, refusal := PrepareSeal(shard, drainWrites);
      if !ready {
        return refusal;
      }
      outcome := FinishSealing(shard, data, writes);
    }

    /** The first half of sealing: drain an active shard, refuse one that is past draining. */
    method PrepareSeal(shard: string, drainWrites: bool) returns (ready: bool, refusal: Outcome)
      modifies this
      ensures View() == Prepared(old(View()), shard, drainWrites) && shard in cache
      ensures ready <==> cache[shard] == Draining
      ensures ready <==> (var was := StateOf(old(View()), shard); was == Draining || (was == Active && drainWrites))
      ensures !ready ==>
                var was := StateOf(old(View()), shard);
                refusal == if was == Active then WriteFailed else Refused(was)
    {
      var current := State(shard);
      if current == Active {
        assert Looked(View(), shard) == View();
        refusal := DrainShard(shard, drainWrites);
        return refusal.Done?, refusal;
      }
      return current == Draining, Refused(current);
    }

    method FinishSealing(shard: string, data: seq<SV.Entry>, writes: bool) returns (outcome: Outcome)
      requires shard in cache && cache[shard] == Draining
      modifies this
      ensures View() == FinishSeal(old(View()), shard, SpotCheck(data) && writes)
      ensures outcome == Finished(data, writes)
    {
      if !SpotCheck(data) {
        return CheckFailed;
      }
      if !writes {
        return WriteFailed;
      }
      WriteTransition(shard, Draining, Sealed);
      return Done(Draining, Sealed);
    }

    method ArchiveShard(shard: string, writes: bool) returns (outcome: Outcome)
      modifies this
      ensures View() == Step(old(View()), Archive(shard, writes))
      ensures outcome == var was := StateOf(old(View()), shard);
                         if was != Sealed then Refused(was) else if !writes then WriteFailed else Done(Sealed, Archived)
      ensures log == if outcome.Done? then old(log) + [Transition(shard, Sealed, Archived)] else old(log)
      ensures shard in cache && cache[shard] == if outcome.Done? then Archived else StateOf(old(View()), shard)
    {
      var current := State(shard);
      if current != Sealed {
        return Refused(current);
      }
      if !writes {
        return WriteFailed;
      }
      WriteTransition(shard, Sealed, Archived);
      return Done(Sealed, Archived);
    }
  }
}
