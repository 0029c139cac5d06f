/** A run of pushes and default rolls at the default index width that digests one hour twice (src/dsm/collective.py). */
module DigestRepeats {
  import opened Common
  import opened Calendar
  import opened Collective
  import opened Digests
  import opened DigestRuns
  import opened DigestCap

  /** The default index width. */
  const WINDOW: nat := 500

  /** The first entries open that many months of different phases; the index gets to start at each of them. */
  const ANCHORS: nat := 21

  /** The place of the entry whose hour is digested twice. */
  const TARGET: nat := 21

  /** Entries at these places get a monthly digest for each phase. */
  const FIRST: nat := 22
  const FAR: nat := 478

  const PUSHES: nat := 521

  type Times = nat -> int

  /** The time opens a month. */
  predicate OpensMonth(x: int) {
    MonthStart(x) == x
  }

  /** The times are not a multiple of 30 days apart. */
  predicate OutOfPhase(x: int, y: int) {
    (y - x) % MONTH != 0
  }

  ghost predicate Anchored(t: Times) {
    && (forall k: nat :: k < ANCHORS ==> OpensMonth(t(k)))
    && (forall j: nat, k: nat :: j < k < ANCHORS ==> OutOfPhase(t(j), t(k)))
  }

  /** Nondecreasing, and from the target on at least 60 days apart. */
  ghost predicate Spread(t: Times) {
    && (forall n: nat, m: nat :: n <= m ==> t(n) <= t(m))
    && (forall n: nat, m: nat :: TARGET <= n < m ==> t(n) + 2 * MONTH <= t(m))
  }

  ghost predicate Scheduled(t: Times, entries: seq<LogEntry>) {
    |entries| == PUSHES && forall n: nat :: n < PUSHES ==> entries[n].timestamp == t(n)
  }

  // ----- the events -----

  function Pushes(entries: seq<LogEntry>, lo: nat, hi: nat): seq<Event>
    requires lo <= hi <= |entries|
    decreases hi - lo
  {
    if lo == hi then [] else [Push(entries[lo])] + Pushes(entries, lo + 1, hi)
  }

  /** A roll of all levels at the time of the next push, and that push. */
  function Cycle(entries: seq<LogEntry>, n: nat): seq<Event>
    requires n < |entries|
  {
    [RollAt(entries[n].timestamp, entries[n].timestamp, {})] + [Push(entries[n])]
  }

  /** Cycles `k` to `n`. */
  function Cycles(entries: seq<LogEntry>, k: nat, n: nat): seq<Event>
    requires k <= n <= ANCHORS && |entries| == PUSHES
    decreases n - k
  {
    if k == n then [] else Cycle(entries, WINDOW + k) + Cycles(entries, k + 1, n)
  }

  /** An hour after the target. */
  function Early(entries: seq<LogEntry>): int
    requires |entries| == PUSHES
  {
    entries[TARGET].timestamp + HOUR
  }

  function Before(entries: seq<LogEntry>): seq<Event>
    requires |entries| == PUSHES
  {
    Pushes(entries, 0, FIRST) + [RollAt(Early(entries), Early(entries), {})]
  }

  function Between(entries: seq<LogEntry>): seq<Event>
    requires |entries| == PUSHES
  {
    Pushes(entries, FIRST, WINDOW) + Cycles(entries, 0, ANCHORS)
  }

  function LastRoll(entries: seq<LogEntry>): Event
    requires |entries| == PUSHES
  {
    RollAt(entries[PUSHES - 1].timestamp, entries[PUSHES - 1].timestamp, {})
  }

  /**
   The run: the anchors and the target, a roll, entries until the index is full, then a roll and a push in turn until
   the target is the oldest indexed entry, and one more roll. Every roll is of all levels, at the present time.
   */
  function Events(entries: seq<LogEntry>): seq<Event>
    requires |entries| == PUSHES
  {
    Before(entries) + Between(entries) + [LastRoll(entries)]
  }

  // ----- the ids that the rolls create -----

  /** The monthly id of the entry at `j` when the oldest indexed entry is anchor `k`. */
  function PhaseId(t: Times, k: nat, j: nat): (Level, int) {
    (MONTHLY, Slot(MONTHLY, t(k), t(j)))
  }

  ghost function Row(t: Times, k: nat, n: nat): set<(Level, int)>
    decreases n, k, t
  {
    if n == 0 then {} else Row(t, k, n - 1) + {PhaseId(t, k, FIRST + n - 1)}
  }

  lemma PhaseIdHolds(t: Times, k: nat, j: nat)
    ensures Aligned(MONTHLY, t(k), PhaseId(t, k, j).1)
    ensures PhaseId(t, k, j).1 <= t(j) < PhaseId(t, k, j).1 + MONTH
  {
    SlotHolds(MONTHLY, t(k), t(j));
  }

  lemma {:induction false} RowHolds(t: Times, k: nat, n: nat, id: (Level, int))
    requires Spread(t) && id in Row(t, k, n)
    ensures n > 0 && id.0 == MONTHLY && Aligned(MONTHLY, t(k), id.1)
    ensures t(FIRST) < id.1 + MONTH && id.1 <= t(FIRST + n - 1)
  {
    PhaseIdHolds(t, k, FIRST + n - 1);
    if id in Row(t, k, n - 1) {
      RowHolds(t, k, n - 1, id);
      assert t(FIRST + n - 2) <= t(FIRST + n - 1);
    } else {
      assert t(FIRST) <= t(FIRST + n - 1);
    }
  }

  lemma RowNext(t: Times, k: nat, n: nat)
    requires Spread(t)
    ensures PhaseId(t, k, FIRST + n) !in Row(t, k, n)
  {
    var id := PhaseId(t, k, FIRST + n);
    PhaseIdHolds(t, k, FIRST + n);
    if n > 0 { assert t(FIRST + n - 1) + 2 * MONTH <= t(FIRST + n); }
    if id in Row(t, k, n) { RowHolds(t, k, n, id); }
  }

  /** Entries 60 days apart have different monthly windows. */
  lemma {:induction false} RowCount(t: Times, k: nat, n: nat)
    requires Spread(t)
    ensures |Row(t, k, n)| == n
  {
    if n > 0 {
      RowCount(t, k, n - 1);
      RowNext(t, k, n - 1);
    }
  }

  /** The ids of the first `k` phases, for the entries at `n` places. */
  ghost function Rows(t: Times, k: nat, n: nat): set<(Level, int)>
    decreases k, n, t
  {
    if k == 0 then {} else Rows(t, k - 1, n) + Row(t, k - 1, n)
  }

  lemma {:induction false} RowsHold(t: Times, k: nat, n: nat, id: (Level, int)) returns (j: nat)
    requires Spread(t) && id in Rows(t, k, n)
    ensures j < k && id.0 == MONTHLY && Aligned(MONTHLY, t(j), id.1) && t(FIRST) < id.1 + MONTH
    decreases k
  {
    if id in Rows(t, k - 1, n) {
      j := RowsHold(t, k - 1, n, id);
    } else {
      RowHolds(t, k - 1, n, id);
      j := k - 1;
    }
  }

  /** No window is on two grids whose anchors are not a multiple of 30 days apart. */
  lemma PhasesDiffer(a: int, b: int, start: int)
    requires Aligned(MONTHLY, a, start) && Aligned(MONTHLY, b, start)
    ensures !OutOfPhase(a, b)
  {
    MultiplesSubtract(start - a, start - b, MONTH);
    assert (start - a) - (start - b) == b - a;
  }

  lemma NotInBoth(t: Times, k: nat, n: nat, id: (Level, int))
    requires Spread(t) && Anchored(t) && k < ANCHORS && id in Rows(t, k, n)
    ensures id !in Row(t, k, n)
  {
    var j := RowsHold(t, k, n, id);
    assert OutOfPhase(t(j), t(k));
    if id in Row(t, k, n) {
      RowHolds(t, k, n, id);
      PhasesDiffer(t(j), t(k), id.1);
    }
  }

  lemma RowsApart(t: Times, k: nat, n: nat)
    requires Spread(t) && Anchored(t) && k < ANCHORS
    ensures |Rows(t, k, n) + Row(t, k, n)| == |Rows(t, k, n)| + |Row(t, k, n)|
  {
    var both := Rows(t, k, n) * Row(t, k, n);
    if both != {} {
      var id :| id in both;
      NotInBoth(t, k, n, id);
    }
  }

  lemma RowsNext(t: Times, k: nat, n: nat)
    requires Spread(t) && Anchored(t) && k < ANCHORS
    ensures |Rows(t, k + 1, n)| == |Rows(t, k, n)| + n
  {
    RowCount(t, k, n);
    RowsApart(t, k, n);
  }

  lemma {:induction false} RowsCount(t: Times, k: nat, n: nat)
    requires Spread(t) && Anchored(t) && k <= ANCHORS && n == FAR
    ensures |Rows(t, k, n)| == FAR * k
    decreases k
  {
    if k > 0 {
      RowsCount(t, k - 1, n);
      RowsNext(t, k - 1, n);
    }
  }

  // ----- the states -----

  lemma {:induction false} PushesRun(t: Times, entries: seq<LogEntry>, st: Shards, lo: nat, hi: nat)
    requires Spread(t) && Scheduled(t, entries) && lo < hi <= PUSHES
    requires st.log == entries[..lo] && st.clock <= t(lo)
    ensures TimedRun(WINDOW, st, Pushes(entries, lo, hi)) && Prompt(Pushes(entries, lo, hi))
    ensures Run(WINDOW, st, Pushes(entries, lo, hi)) == st.(log := entries[..hi], clock := t(hi - 1))
    decreases hi - lo
  {
    var next := Step(WINDOW, st, Push(entries[lo]));
    assert next.log == entries[..lo + 1];
    var es, rest := Pushes(entries, lo, hi), Pushes(entries, lo + 1, hi);
    assert es[0] == Push(entries[lo]) && es[1..] == rest;
    if lo + 1 < hi {
      assert t(lo) <= t(lo + 1);
      PushesRun(t, entries, next, lo + 1, hi);
    }
  }

  /** The state before cycle `k`: the index starts at anchor `k`, and every earlier phase has its digests. */
  ghost predicate AtCycle(t: Times, entries: seq<LogEntry>, first: seq<Digest>, st: Shards, k: nat)
    requires |entries| == PUSHES && k <= ANCHORS
  {
    && Sound(WINDOW, st) && st.log == entries[..WINDOW + k] && st.clock == t(WINDOW + k - 1)
    && first <= st.store && Rows(t, k, FAR) <= Ids(st.store)
  }

  /** One roll gives the entry at `j` its monthly digest of phase `k`. */
  lemma PhaseCovered(t: Times, entries: seq<LogEntry>, st: Shards, k: nat, j: nat)
    requires Spread(t) && Anchored(t) && Scheduled(t, entries) && k < ANCHORS && FIRST <= j < WINDOW
    requires Sound(WINDOW, st) && st.log == entries[..WINDOW + k] && st.clock <= t(WINDOW + k)
    ensures var now := t(WINDOW + k); PhaseId(t, k, j) in Ids(Step(WINDOW, st, RollAt(now, now, {})).store)
  {
    var now, index := t(WINDOW + k), Rebuild(st.log, WINDOW);
    IndexAt(st.log, WINDOW, 0);
    RebuildHas(st.log, WINDOW, j);
    assert OpensMonth(t(k));
    assert index[0].contributedAt == t(k) && Anchor(MONTHLY, t(k)) == t(k);
    PhaseIdHolds(t, k, j);
    assert t(j) + 2 * MONTH <= now;
    RollCovers(WINDOW, st, now, now, {}, MONTHLY, View(entries[j]));
  }

  lemma {:induction false} RowCovered(t: Times, entries: seq<LogEntry>, st: Shards, k: nat, n: nat)
    requires Spread(t) && Anchored(t) && Scheduled(t, entries) && k < ANCHORS && n <= FAR
    requires Sound(WINDOW, st) && st.log == entries[..WINDOW + k] && st.clock <= t(WINDOW + k)
    ensures var now := t(WINDOW + k); Row(t, k, n) <= Ids(Step(WINDOW, st, RollAt(now, now, {})).store)
    decreases n
  {
    if n > 0 {
      RowCovered(t, entries, st, k, n - 1);
      PhaseCovered(t, entries, st, k, FIRST + n - 1);
    }
  }

  lemma IdsGrow(store: seq<Digest>, later: seq<Digest>)
    requires store <= later
    ensures Ids(store) <= Ids(later)
  {
  }

  lemma RollOfCycle(t: Times, entries: seq<LogEntry>, first: seq<Digest>, st: Shards, k: nat)
    requires Spread(t) && Anchored(t) && Scheduled(t, entries) && k < ANCHORS && AtCycle(t, entries, first, st, k)
    ensures var rolled := Step(WINDOW, st, RollAt(t(WINDOW + k), t(WINDOW + k), {}));
      && Sound(WINDOW, rolled) && rolled.log == st.log && rolled.clock == t(WINDOW + k)
      && first <= rolled.store && Rows(t, k + 1, FAR) <= Ids(rolled.store)
    ensures st.clock <= t(WINDOW + k)
  {
    var now := t(WINDOW + k);
    var rolled := Step(WINDOW, st, RollAt(now, now, {}));
    assert t(WINDOW + k - 1) <= now;
    RowCovered(t, entries, st, k, FAR);
    RollSound(WINDOW, st, now, now, {});
    IdsGrow(st.store, rolled.store);
  }

  lemma TwoSteps(window: nat, st: Shards, a: Event, b: Event)
    ensures Run(window, st, [a] + [b]) == Step(window, Step(window, st, a), b)
    ensures TimedRun(window, st, [a] + [b]) <==> Timed(st, a) && Timed(Step(window, st, a), b)
  {
    RunConcat(window, st, [a], [b]);
    OneStep(window, st, a);
    OneStep(window, Step(window, st, a), b);
  }

  lemma CycleRun(t: Times, entries: seq<LogEntry>, first: seq<Digest>, st: Shards, k: nat)
    requires Spread(t) && Anchored(t) && Scheduled(t, entries) && k < ANCHORS && AtCycle(t, entries, first, st, k)
    ensures TimedRun(WINDOW, st, Cycle(entries, WINDOW + k)) && Prompt(Cycle(entries, WINDOW + k))
    ensures AtCycle(t, entries, first, Run(WINDOW, st, Cycle(entries, WINDOW + k)), k + 1)
  {
    var now, entry := t(WINDOW + k), entries[WINDOW + k];
    var roll, push := RollAt(now, now, {}), Push(entry);
    var rolled := Step(WINDOW, st, roll);
    RollOfCycle(t, entries, first, st, k);
    PushOfCycle(t, entries, first, rolled, k);
    TwoSteps(WINDOW, st, roll, push);
  }

  lemma PushOfCycle(t: Times, entries: seq<LogEntry>, first: seq<Digest>, rolled: Shards, k: nat)
    requires Scheduled(t, entries) && k < ANCHORS && Sound(WINDOW, rolled)
    requires rolled.log == entries[..WINDOW + k] && rolled.clock == t(WINDOW + k)
    requires first <= rolled.store && Rows(t, k + 1, FAR) <= Ids(rolled.store)
    ensures AtCycle(t, entries, first, Step(WINDOW, rolled, Push(entries[WINDOW + k])), k + 1)
  {
    PushSound(WINDOW, rolled, entries[WINDOW + k]);
    assert rolled.log + [entries[WINDOW + k]] == entries[..WINDOW + k + 1];
  }

  lemma PromptConcat(a: seq<Event>, b: seq<Event>)
    requires Prompt(a) && Prompt(b)
    ensures Prompt(a + b)
  {
  }

  lemma {:induction false} CyclesRun(t: Times, entries: seq<LogEntry>, first: seq<Digest>, st: Shards, k: nat, n: nat)
    requires Spread(t) && Anchored(t) && Scheduled(t, entries) && k <= n <= ANCHORS && AtCycle(t, entries, first, st, k)
    ensures TimedRun(WINDOW, st, Cycles(entries, k, n)) && Prompt(Cycles(entries, k, n))
    ensures AtCycle(t, entries, first, Run(WINDOW, st, Cycles(entries, k, n)), n)
    decreases n - k
  {
    if k < n {
      var one, rest := Cycle(entries, WINDOW + k), Cycles(entries, k + 1, n);
      CycleRun(t, entries, first, st, k);
      CyclesRun(t, entries, first, Run(WINDOW, st, one), k + 1, n);
      RunConcat(WINDOW, st, one, rest);
      PromptConcat(one, rest);
    }
  }

  // ----- the repeat -----

  /** An hour after the target, a roll digests its hour. */
  lemma HourDigest(t: Times, entries: seq<LogEntry>, st: Shards) returns (i: nat)
    requires Scheduled(t, entries) && Sound(WINDOW, st) && st.log == entries[..FIRST] && st.clock == t(TARGET)
    ensures i < |Step(WINDOW, st, RollAt(Early(entries), Early(entries), {})).store|
    ensures DigestId(Step(WINDOW, st, RollAt(Early(entries), Early(entries), {})).store[i]) ==
            (1, Slot(1, 0, t(TARGET)))
  {
    var early := Early(entries);
    RebuildHas(st.log, WINDOW, TARGET);
    SlotHolds(1, 0, t(TARGET));
    i := RollDigests(WINDOW, st, early, early, {}, 1, View(entries[TARGET]));
  }

  lemma EmptySound(clock: int)
    ensures Sound(WINDOW, Shards([], [], clock, []))
  {
  }

  /** What the first roll leaves: a lawful state with a digest of the target's hour. */
  lemma FirstRoll(t: Times, entries: seq<LogEntry>, clock: int) returns (st: Shards, i: nat)
    requires Spread(t) && Scheduled(t, entries) && clock <= t(0)
    ensures TimedRun(WINDOW, Shards([], [], clock, []), Before(entries)) && Prompt(Before(entries))
    ensures st == Run(WINDOW, Shards([], [], clock, []), Before(entries)) && Sound(WINDOW, st)
    ensures st.log == entries[..FIRST] && st.clock == Early(entries)
    ensures i < |st.store| && DigestId(st.store[i]) == (1, Slot(1, 0, t(TARGET)))
  {
    var start, pushes := Shards([], [], clock, []), Pushes(entries, 0, FIRST);
    var roll := RollAt(Early(entries), Early(entries), {});
    PushesRun(t, entries, start, 0, FIRST);
    EmptySound(clock);
    PromptRunsSound(WINDOW, start, pushes);
    var pushed := Run(WINDOW, start, pushes);
    RunConcat(WINDOW, start, pushes, [roll]);
    OneStep(WINDOW, pushed, roll);
    st := Step(WINDOW, pushed, roll);
    RollSound(WINDOW, pushed, roll.now, roll.at, roll.levels);
    i := HourDigest(t, entries, pushed);
  }

  lemma PushesToCycles(t: Times, entries: seq<LogEntry>, st: Shards) returns (full: Shards)
    requires Spread(t) && Scheduled(t, entries) && Sound(WINDOW, st)
    requires st.log == entries[..FIRST] && st.clock == Early(entries)
    ensures full == Run(WINDOW, st, Pushes(entries, FIRST, WINDOW)) && AtCycle(t, entries, st.store, full, 0)
    ensures TimedRun(WINDOW, st, Pushes(entries, FIRST, WINDOW)) && Prompt(Pushes(entries, FIRST, WINDOW))
  {
    assert t(TARGET) + 2 * MONTH <= t(FIRST);
    PushesRun(t, entries, st, FIRST, WINDOW);
    PromptRunsSound(WINDOW, st, Pushes(entries, FIRST, WINDOW));
    full := Run(WINDOW, st, Pushes(entries, FIRST, WINDOW));
  }

  /** From the first roll to the last but one. */
  lemma BetweenRun(t: Times, entries: seq<LogEntry>, st: Shards) returns (end: Shards)
    requires Spread(t) && Anchored(t) && Scheduled(t, entries) && Sound(WINDOW, st)
    requires st.log == entries[..FIRST] && st.clock == Early(entries)
    ensures end == Run(WINDOW, st, Between(entries)) && AtCycle(t, entries, st.store, end, ANCHORS)
    ensures TimedRun(WINDOW, st, Between(entries)) && Prompt(Between(entries))
  {
    var full := PushesToCycles(t, entries, st);
    CyclesRun(t, entries, st.store, full, 0, ANCHORS);
    RunConcat(WINDOW, st, Pushes(entries, FIRST, WINDOW), Cycles(entries, 0, ANCHORS));
    PromptConcat(Pushes(entries, FIRST, WINDOW), Cycles(entries, 0, ANCHORS));
    end := Run(WINDOW, full, Cycles(entries, 0, ANCHORS));
  }

  /** None of the counted windows was closed at the first roll. */
  lemma NewIds(t: Times, st: Shards, k: nat, n: nat, id: (Level, int))
    requires Spread(t) && Sound(WINDOW, st) && st.clock == t(TARGET) + HOUR && id in Rows(t, k, n)
    ensures id !in Ids(st.store)
  {
    var j := RowsHold(t, k, n, id);
    assert t(TARGET) + 2 * MONTH <= t(FIRST);
    forall i | 0 <= i < |st.store| ensures DigestId(st.store[i]) != id {
      assert GoodDigest(WINDOW, st, i);
    }
  }

  lemma NewIdsApart(t: Times, st: Shards, k: nat, n: nat)
    requires Spread(t) && Sound(WINDOW, st) && st.clock == t(TARGET) + HOUR
    ensures |Ids(st.store) + Rows(t, k, n)| == |Ids(st.store)| + |Rows(t, k, n)|
  {
    var both := Ids(st.store) * Rows(t, k, n);
    if both != {} {
      var id :| id in both;
      NewIds(t, st, k, n, id);
    }
  }

  /** With one digest per id, more than the read cap were stored after the first roll. */
  lemma ManyStored(t: Times, st: Shards, store: seq<Digest>, k: nat)
    requires Spread(t) && Anchored(t) && Sound(WINDOW, st) && st.clock == t(TARGET) + HOUR && k <= ANCHORS
    requires OnePerWindow(store) && st.store <= store && Rows(t, k, FAR) <= Ids(store)
    ensures |store| >= |st.store| + FAR * k
  {
    RepeatsStay(st.store, store);
    DistinctIdsCount(st.store);
    DistinctIdsCount(store);
    IdsGrow(st.store, store);
    NewIdsApart(t, st, k, FAR);
    RowsCount(t, k, FAR);
    SubsetFewer(Ids(st.store) + Rows(t, k, FAR), Ids(store));
  }

  /** The target is the oldest indexed entry at the end, so its hour is still wanted. */
  lemma HourStillWanted(t: Times, entries: seq<LogEntry>, end: Shards, d: Digest)
    requires Spread(t) && Scheduled(t, entries) && end.log == entries && Shaped(d)
    requires DigestId(d) == (1, Slot(1, 0, t(TARGET)))
    ensures WantedAgain(Rebuild(end.log, WINDOW), t(PUSHES - 1), {}, d)
  {
    var index := Rebuild(end.log, WINDOW);
    IndexAt(end.log, WINDOW, 0);
    SlotHolds(1, 0, t(TARGET));
    FixedGrid(1, t(TARGET), d.start);
    assert index[0] in index && Inside(index[0], d.start, d.end);
    assert t(TARGET) + 2 * MONTH <= t(PUSHES - 1);
  }

  lemma LastRollForgets(t: Times, entries: seq<LogEntry>, st: Shards, end: Shards, i: nat)
    requires Spread(t) && Anchored(t) && Scheduled(t, entries) && Sound(WINDOW, st) && st.clock == Early(entries)
    requires i < |st.store| && DigestId(st.store[i]) == (1, Slot(1, 0, t(TARGET)))
    requires AtCycle(t, entries, st.store, end, ANCHORS) && OnePerWindow(end.store)
    ensures Forgets(WINDOW, end, t(PUSHES - 1), {})
  {
    ManyStored(t, st, end.store, ANCHORS);
    SoundIsKept(WINDOW, st);
    assert entries[..PUSHES] == entries && end.store[i] == st.store[i];
    HourStillWanted(t, entries, end, end.store[i]);
  }

  /** Whatever is pushed at such times, the run does not remember: its last roll finds an hour's digest out of reach. */
  lemma SpreadRunForgets(t: Times, entries: seq<LogEntry>, clock: int)
    requires Spread(t) && Anchored(t) && Scheduled(t, entries) && clock <= t(0)
    ensures TimedRun(WINDOW, Shards([], [], clock, []), Events(entries)) && Prompt(Events(entries))
    ensures !Remembers(WINDOW, Shards([], [], clock, []), Events(entries))
  {
    var start, last := Shards([], [], clock, []), LastRoll(entries);
    var st, i := FirstRoll(t, entries, clock);
    var end := BetweenRun(t, entries, st);
    RunConcat(WINDOW, start, Before(entries), Between(entries));
    PromptConcat(Before(entries), Between(entries));
    var most := Before(entries) + Between(entries);
    RunConcat(WINDOW, start, most, [last]);
    PromptConcat(most, [last]);
    OneStep(WINDOW, end, last);
    RunsKeepDigestsIff(WINDOW, start, most);
    if OnePerWindow(end.store) { LastRollForgets(t, entries, st, end, i); }
  }

  // ----- one such schedule -----

  /** The year whose New Year opens the month of anchor `k`. */
  function YearOf(k: nat): nat {
    if k < 20 then k + 1 else 22
  }

  /** New Year of years 1 to 20 and 22, then every 60 days. */
  function DayOf(n: nat): nat {
    if n < ANCHORS then DaysBefore(YearOf(n)) else DaysBefore(22) + 60 * (n - 20)
  }

  function CalendarTimes(): Times {
    (n: nat) => DAY * DayOf(n)
  }

  /** The days of the first anchors, and of the last one. */
  lemma AnchorDay(k: nat)
    requires k < ANCHORS
    ensures DayOf(k) == if k < 20 then 365 * k + k / 4 else 7670
  {
    FirstCentury(YearOf(k));
  }

  /** Four-year periods and years into one, for the year of anchor `k`. */
  function Periods(k: nat): nat { if k < 20 then k / 4 else 5 }

  function YearsInto(k: nat): nat { if k < 20 then k % 4 else 1 }

  lemma AnchorParts(k: nat)
    requires k < ANCHORS
    ensures DayOf(k) == 1461 * Periods(k) + 365 * YearsInto(k)
  {
    AnchorDay(k);
  }

  /** Such a difference in days is a multiple of 30 only if it is none. */
  lemma NotThirty(a: int, b: int, q: int)
    requires -5 <= a <= 5 && -3 <= b <= 3 && 1461 * a + 365 * b == 30 * q
    ensures (a == 0 && b == 0) || (a == 5 && (b == 3 || b == -3)) || (a == -5 && (b == 3 || b == -3))
  {
    var m := 6 * q - 73 * b - 292 * a;
    assert a == 5 * m;
    if m == 0 {
      assert b == 6 * (q - 12 * b);
    } else if m == 1 {
      assert 3 + b == 6 * (q - 243 - 12 * b);
    } else {
      assert -3 + b == 6 * (q + 243 - 12 * b);
    }
  }

  lemma PhasesDistinct(j: nat, k: nat, q: int)
    requires j < k < ANCHORS
    ensures DayOf(k) - DayOf(j) != 30 * q
  {
    AnchorParts(j);
    AnchorParts(k);
    var a, b := Periods(k) - Periods(j), YearsInto(k) - YearsInto(j);
    if 1461 * a + 365 * b == 30 * q { NotThirty(a, b, q); }
  }

  lemma WholeMonths(x: int, y: int)
    requires (DAY * x - DAY * y) % MONTH == 0
    ensures x - y == 30 * ((DAY * x - DAY * y) / MONTH)
  {
    MultipleIs(DAY * x - DAY * y, MONTH);
  }

  lemma AnchorsApart(j: nat, k: nat)
    requires j < k < ANCHORS
    ensures OutOfPhase(DAY * DayOf(j), DAY * DayOf(k))
  {
    var z := DAY * DayOf(k) - DAY * DayOf(j);
    PhasesDistinct(j, k, z / MONTH);
    if z % MONTH == 0 { WholeMonths(DayOf(k), DayOf(j)); }
  }

  lemma AnchorOpens(k: nat)
    requires k < ANCHORS
    ensures OpensMonth(DAY * DayOf(k))
  {
    NewYear(YearOf(k));
  }

  lemma CalendarAnchored()
    ensures Anchored(CalendarTimes())
  {
    var t := CalendarTimes();
    forall k: nat | k < ANCHORS ensures OpensMonth(t(k)) {
      AnchorOpens(k);
    }
    forall j: nat, k: nat | j < k < ANCHORS ensures OutOfPhase(t(j), t(k)) {
      AnchorsApart(j, k);
    }
  }

  lemma DaysGrow(n: nat, m: nat)
    requires n < m
    ensures DayOf(n) <= DayOf(m) && (TARGET <= n ==> DayOf(n) + 60 <= DayOf(m))
  {
    if n < ANCHORS { AnchorDay(n); }
    if m < ANCHORS { AnchorDay(m); }
    AnchorDay(20);
  }

  lemma CalendarSpread()
    ensures Spread(CalendarTimes())
  {
    var t := CalendarTimes();
    forall n: nat, m: nat | n <= m ensures t(n) <= t(m) && (TARGET <= n < m ==> t(n) + 2 * MONTH <= t(m)) {
      if n < m { DaysGrow(n, m); }
    }
  }

  /**
   An hour is digested twice. Push one entry on New Year of each of years 1 to 20 and 22 and then one every 60 days,
   with any content, and roll all levels at the present time as `Events` does: from an empty collective with the default
   index of 500 entries, after 521 pushes two stored digests have one id.
   */
  lemma AnHourIsDigestedTwice(entries: seq<LogEntry>)
    requires |entries| == PUSHES && forall n: nat :: n < PUSHES ==> entries[n].timestamp == DAY * DayOf(n)
    ensures var start := Shards([], [], 0, []);
      && TimedRun(WINDOW, start, Events(entries)) && Prompt(Events(entries))
      && !Remembers(WINDOW, start, Events(entries))
      && !OnePerWindow(Run(WINDOW, start, Events(entries)).store)
  {
    var t := CalendarTimes();
    CalendarAnchored();
    CalendarSpread();
    SpreadRunForgets(t, entries, 0);
    FreshRunsOneDigestIff(WINDOW, 0, Events(entries));
  }
}
