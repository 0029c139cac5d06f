/** Digests over whole runs of pushes and rolls under a nondecreasing clock (src/dsm/collective.py). */
module DigestRuns {
  import opened Common
  import opened Calendar
  import opened Collective
  import opened Digests

  /**
   The collective log, the digests shard and the clock. `born` is a history variable: for each stored digest, the
   length of the log when it was created.
   */
  datatype Shards = Shards(log: seq<LogEntry>, store: seq<Digest>, clock: int, born: seq<nat>)

  datatype Event =
    | Push(entry: LogEntry)
    | RollAt(now: int, at: int, levels: set<int>)

  /** Entries are stamped by a clock that never runs backwards; a roll happens at `at`, for any reference time. */
  predicate Timed(st: Shards, e: Event) {
    match e
    case Push(entry) => st.clock <= entry.timestamp
    case RollAt(_, at, _) => st.clock <= at
  }

  /** No roll runs ahead of the clock. */
  predicate Prompt(es: seq<Event>) {
    forall e :: e in es && e.RollAt? ==> e.now <= e.at
  }

  function Step(window: nat, st: Shards, e: Event): Shards {
    match e
    case Push(entry) => st.(log := st.log + [entry], clock := entry.timestamp)
    case RollAt(now, at, levels) =>
      var store := Roll(Rebuild(st.log, window), st.store, now, levels);
      st.(store := store, clock := at, born := Stretched(st.born, |store|, |st.log|))
  }

  /** The history continued: every new digest was born at log length `n`. */
  function Stretched(born: seq<nat>, length: nat, n: nat): (r: seq<nat>)
    ensures |born| <= length ==> |r| == length && r[..|born|] == born && forall i :: |born| <= i < length ==> r[i] == n
  {
    if |born| < length then born + seq(length - |born|, _ => n) else born
  }

  function Run(window: nat, st: Shards, es: seq<Event>): Shards
    decreases |es|
  {
    if es == [] then st else Run(window, Step(window, st, es[0]), es[1..])
  }

  /** The clock never runs backwards. */
  predicate TimedRun(window: nat, st: Shards, es: seq<Event>)
    decreases |es|
  {
    es == [] || (Timed(st, es[0]) && TimedRun(window, Step(window, st, es[0]), es[1..]))
  }

  // ----- the invariant -----

  ghost predicate Stamped(log: seq<LogEntry>, clock: int) {
    && (forall i :: 0 <= i < |log| ==> log[i].timestamp <= clock)
    && (forall i, j :: 0 <= i < j < |log| ==> log[i].timestamp <= log[j].timestamp)
  }

  /** No two digests share an id: a level and a start. */
  ghost predicate OnePerWindow(store: seq<Digest>) {
    forall i, j :: 0 <= i < j < |store| ==> DigestId(store[i]) != DigestId(store[j])
  }

  /** A window of the level's length, on the fixed grid below the monthly level and from a midnight on it. */
  ghost predicate Shaped(d: Digest) {
    && d.end == d.start + Length(d.level)
    && if d.level == MONTHLY then d.start % DAY == 0 else Aligned(d.level, 0, d.start)
  }

  /** Every indexed entry of the window is among the digest's sources. */
  ghost predicate Covers(index: seq<CollectiveEntry>, d: Digest) {
    forall e :: e in index && Inside(e, d.start, d.end) ==> e.hash in d.sources
  }

  /** The place of the oldest indexed entry when the log had `b` entries. */
  function Oldest(window: nat, b: nat): nat {
    if b <= window then 0 else b - window
  }

  /** At place `pos`, indexed when the log had `b` entries, the log holds the entry that `d` was made for. */
  ghost predicate WitnessAt(log: seq<LogEntry>, window: nat, b: nat, d: Digest, pos: int) {
    && Oldest(window, b) <= pos < b <= |log|
    && d.start == Slot(d.level, Anchor(d.level, log[Oldest(window, b)].timestamp), log[pos].timestamp)
  }

  /** The digest was made for a reason, and nothing that came later belongs to it. */
  ghost predicate Timely(log: seq<LogEntry>, window: nat, b: nat, d: Digest) {
    && (exists pos :: WitnessAt(log, window, b, d, pos))
    && (forall pos :: b <= pos < |log| ==> log[pos].timestamp >= d.end)
  }

  ghost predicate GoodDigest(window: nat, st: Shards, i: nat)
    requires i < |st.store| && i < |st.born|
  {
    && Shaped(st.store[i]) && st.store[i].end <= st.clock
    && Covers(Rebuild(st.log, window), st.store[i]) && Timely(st.log, window, st.born[i], st.store[i])
  }

  /** What holds whenever rolls happen and whatever they are asked for. */
  ghost predicate Kept(st: Shards) {
    Stamped(st.log, st.clock) && forall i :: 0 <= i < |st.store| ==> Shaped(st.store[i])
  }

  /** What holds of everything but the ids, when no roll runs ahead of the clock. */
  ghost predicate Sound(window: nat, st: Shards) {
    && Stamped(st.log, st.clock)
    && |st.born| == |st.store|
    && (forall i, j :: 0 <= i < j < |st.born| ==> st.born[i] <= st.born[j])
    && (forall i :: 0 <= i < |st.store| ==> GoodDigest(window, st, i))
  }

  lemma SoundIsKept(window: nat, st: Shards)
    requires Sound(window, st)
    ensures Kept(st)
  {
    forall i | 0 <= i < |st.store| ensures Shaped(st.store[i]) {
      assert GoodDigest(window, st, i);
    }
  }

  // ----- what a roll finds due -----

  lemma {:induction false} SourcesExact(index: seq<CollectiveEntry>, start: int, end: int, h: string)
    ensures h in Sources(index, start, end) <==>
            exists e :: e in index && start <= e.contributedAt <= end && e.hash == h
  {
    if index != [] {
      SourcesExact(index[1..], start, end, h);
      assert index == [index[0]] + index[1..];
    }
  }

  /** Sources come in the order of the index, which their hash depends on. */
  lemma {:induction false} SourcesInOrder(a: seq<CollectiveEntry>, b: seq<CollectiveEntry>, start: int, end: int)
    ensures Sources(a + b, start, end) == Sources(a, start, end) + Sources(b, start, end)
  {
    if a == [] {
      assert a + b == b;
    } else {
      SourcesInOrder(a[1..], b, start, end);
      assert (a + b)[0] == a[0] && (a + b)[1..] == a[1..] + b;
      ConcatAssoc([a[0].hash], Sources(a[1..], start, end), Sources(b, start, end));
    }
  }

  predicate Chosen(level: Level, levels: set<int>) {
    levels == {} || level in levels
  }

  lemma {:induction false} OnlyLevelsSound(ws: seq<Window>, levels: set<int>)
    requires Distinct(ws)
    ensures Distinct(OnlyLevels(ws, levels))
    ensures forall w :: w in OnlyLevels(ws, levels) <==> w in ws && w.level in levels
  {
    if ws != [] {
      var rest := ws[1..];
      assert Distinct(rest);
      OnlyLevelsSound(rest, levels);
      assert ws == [ws[0]] + rest;
      var only := OnlyLevels(rest, levels);
      forall w | w in only ensures IdOf(w) != IdOf(ws[0]) {
        var j :| 0 <= j < |rest| && rest[j] == w;
        assert IdOf(ws[0]) != IdOf(ws[j + 1]);
      }
    }
  }

  /** Choosing levels keeps the order in which windows are pending. */
  lemma {:induction false} OnlyLevelsInOrder(a: seq<Window>, b: seq<Window>, levels: set<int>)
    ensures OnlyLevels(a + b, levels) == OnlyLevels(a, levels) + OnlyLevels(b, levels)
  {
    if a == [] {
      assert a + b == b;
    } else {
      OnlyLevelsInOrder(a[1..], b, levels);
      assert (a + b)[0] == a[0] && (a + b)[1..] == a[1..] + b;
      ConcatAssoc([a[0]], OnlyLevels(a[1..], levels), OnlyLevels(b, levels));
    }
  }

  lemma DueDistinct(index: seq<CollectiveEntry>, store: seq<Digest>, now: int, levels: set<int>)
    ensures Distinct(Due(index, store, now, levels))
  {
    var existing := Ids(Newest(store, READ_CAP));
    PendingDistinct(index, existing, now);
    OnlyLevelsSound(Pending(index, existing, now), levels);
  }

  /** A roll digests exactly the proper windows of the chosen levels. */
  lemma DueIff(index: seq<CollectiveEntry>, store: seq<Digest>, now: int, levels: set<int>, w: Window)
    requires Chronological(index)
    ensures w in Due(index, store, now, levels) <==>
            Proper(index, Ids(Newest(store, READ_CAP)), now, w) && Chosen(w.level, levels)
  {
    var existing := Ids(Newest(store, READ_CAP));
    PendingDistinct(index, existing, now);
    OnlyLevelsSound(Pending(index, existing, now), levels);
    PendingIffProper(index, existing, now, w);
  }

  lemma IndexAt(log: seq<LogEntry>, window: nat, i: nat)
    requires i < |Rebuild(log, window)|
    ensures Rebuild(log, window)[i] == View(log[|log| - |Rebuild(log, window)| + i])
  {
    assert Newest(log, window)[i] == log[|log| - |Rebuild(log, window)| + i];
  }

  lemma IndexChronological(log: seq<LogEntry>, window: nat, clock: int)
    requires Stamped(log, clock)
    ensures Chronological(Rebuild(log, window))
  {
    var index := Rebuild(log, window);
    forall i, j | 0 <= i < j < |index| ensures index[i].contributedAt <= index[j].contributedAt {
      IndexAt(log, window, i);
      IndexAt(log, window, j);
    }
  }

  // ----- when a roll repeats itself -----

  /**
   A roll would want this digest's window if it did not see the digest: closed, chosen, on today's grid, not empty.
   */
  ghost predicate WantedAgain(index: seq<CollectiveEntry>, now: int, levels: set<int>, d: Digest) {
    && index != [] && Chosen(d.level, levels) && d.end <= now && HasEntries(index, d.start, d.end)
    && Aligned(d.level, Anchor(d.level, index[0].contributedAt), d.start)
  }

  lemma InNewest<T>(s: seq<T>, cap: nat, i: nat)
    requires i < |s| && |s| - i <= cap
    ensures s[i] in Newest(s, cap)
  {
    var r := Newest(s, cap);
    assert r[i - (|s| - |r|)] == s[i];
  }

  lemma FromNewest<T>(s: seq<T>, cap: nat, x: T)
    requires x in Newest(s, cap)
    ensures x in s
  {
  }

  /** With one digest per id, a roll misses a stored digest exactly when it is older than the newest `READ_CAP`. */
  lemma SeenIffNew(store: seq<Digest>, i: nat)
    requires OnePerWindow(store) && i < |store|
    ensures DigestId(store[i]) in Ids(Newest(store, READ_CAP)) <==> i >= |store| - READ_CAP
  {
    if i >= |store| - READ_CAP { InNewest(store, READ_CAP, i); }
    var seen := Newest(store, READ_CAP);
    forall j | 0 <= j < |seen| ensures DigestId(seen[j]) == DigestId(store[i]) ==> i >= |store| - READ_CAP {
      var k := |store| - |seen| + j;
      assert seen[j] == store[k];
      if i < k { assert DigestId(store[i]) != DigestId(store[k]); }
    }
  }

  /**
   When a roll digests a window again: exactly when the stored digest is past the read cap, and the window is wanted.
   Below the monthly level a closed window is wanted as long as it holds an indexed entry.
   */
  lemma RepeatsIff(index: seq<CollectiveEntry>, store: seq<Digest>, now: int, levels: set<int>, i: nat)
    requires Chronological(index) && OnePerWindow(store) && i < |store| && Shaped(store[i])
    ensures (exists w :: w in Due(index, store, now, levels) && IdOf(w) == DigestId(store[i])) <==>
            i < |store| - READ_CAP && WantedAgain(index, now, levels, store[i])
    ensures store[i].level != MONTHLY ==>
            (WantedAgain(index, now, levels, store[i]) <==>
             Chosen(store[i].level, levels) && store[i].end <= now && HasEntries(index, store[i].start, store[i].end))
  {
    var d := store[i];
    var w := Window(d.level, d.start, d.end);
    SeenIffNew(store, i);
    DueIff(index, store, now, levels, w);
    forall v | v in Due(index, store, now, levels) && IdOf(v) == DigestId(d) ensures v == w {
      DueIff(index, store, now, levels, v);
    }
    if index != [] && d.level != MONTHLY { FixedGrid(d.level, index[0].contributedAt, d.start); }
  }

  /** Some stored digest is past the read cap while a roll still wants its window. */
  ghost predicate Forgets(window: nat, st: Shards, now: int, levels: set<int>) {
    exists i :: 0 <= i < |st.store| - READ_CAP && WantedAgain(Rebuild(st.log, window), now, levels, st.store[i])
  }

  /** A due window has no stored digest at all, not only none among the newest. */
  lemma DueIsNew(window: nat, st: Shards, now: int, levels: set<int>, i: nat, w: Window)
    requires Kept(st) && OnePerWindow(st.store) && !Forgets(window, st, now, levels) && i < |st.store|
    requires w in Due(Rebuild(st.log, window), st.store, now, levels)
    ensures IdOf(w) != DigestId(st.store[i])
  {
    IndexChronological(st.log, window, st.clock);
    RepeatsIff(Rebuild(st.log, window), st.store, now, levels, i);
  }

  lemma RollDistinct(window: nat, st: Shards, now: int, levels: set<int>)
    requires Kept(st) && OnePerWindow(st.store) && !Forgets(window, st, now, levels)
    ensures OnePerWindow(Roll(Rebuild(st.log, window), st.store, now, levels))
  {
    var index := Rebuild(st.log, window);
    var due, r := Due(index, st.store, now, levels), Roll(index, st.store, now, levels);
    DueDistinct(index, st.store, now, levels);
    forall i, j | 0 <= i < j < |r| ensures DigestId(r[i]) != DigestId(r[j]) {
      if j >= |st.store| {
        var w := due[j - |st.store|];
        assert w in due && DigestId(r[j]) == IdOf(w);
        if i < |st.store| {
          DueIsNew(window, st, now, levels, i, w);
        } else {
          assert DigestId(r[i]) == IdOf(due[i - |st.store|]);
        }
      }
    }
  }

  lemma DueTwice(index: seq<CollectiveEntry>, store: seq<Digest>, now: int, levels: set<int>, i: nat, w: Window)
    requires i < |store| && w in Due(index, store, now, levels) && IdOf(w) == DigestId(store[i])
    ensures !OnePerWindow(Roll(index, store, now, levels))
  {
    var due, r := Due(index, store, now, levels), Roll(index, store, now, levels);
    var k :| 0 <= k < |due| && due[k] == w;
    assert r[i] == store[i] && r[|store| + k] == DigestOf(index, w);
    assert DigestId(r[i]) == DigestId(r[|store| + k]);
  }

  lemma RollRepeatsAt(index: seq<CollectiveEntry>, store: seq<Digest>, now: int, levels: set<int>, i: nat)
    requires Chronological(index) && OnePerWindow(store) && i < |store| - READ_CAP && Shaped(store[i])
    requires WantedAgain(index, now, levels, store[i])
    ensures !OnePerWindow(Roll(index, store, now, levels))
  {
    RepeatsIff(index, store, now, levels, i);
    var w :| w in Due(index, store, now, levels) && IdOf(w) == DigestId(store[i]);
    DueTwice(index, store, now, levels, i, w);
  }

  lemma RollRepeats(window: nat, st: Shards, now: int, levels: set<int>)
    requires Kept(st) && OnePerWindow(st.store) && Forgets(window, st, now, levels)
    ensures !OnePerWindow(Roll(Rebuild(st.log, window), st.store, now, levels))
  {
    var index := Rebuild(st.log, window);
    var i :| 0 <= i < |st.store| - READ_CAP && WantedAgain(index, now, levels, st.store[i]);
    IndexChronological(st.log, window, st.clock);
    RollRepeatsAt(index, st.store, now, levels, i);
  }

  // ----- rolls and pushes keep the rest -----

  lemma EntryPlace(log: seq<LogEntry>, window: nat, e: CollectiveEntry)
    requires e in Rebuild(log, window)
    ensures exists pos :: Oldest(window, |log|) <= pos < |log| && View(log[pos]) == e
    ensures Rebuild(log, window)[0] == View(log[Oldest(window, |log|)])
  {
    var index := Rebuild(log, window);
    var k :| 0 <= k < |index| && index[k] == e;
    var pos := |log| - |index| + k;
    assert Newest(log, window)[k] == log[pos];
    assert View(log[pos]) == e;
  }

  /** A due window is of the right shape. */
  lemma DueShaped(
    log: seq<LogEntry>, window: nat, clock: int, store: seq<Digest>, now: int, levels: set<int>, w: Window)
    requires Stamped(log, clock) && w in Due(Rebuild(log, window), store, now, levels)
    ensures Shaped(DigestOf(Rebuild(log, window), w)) && w.end <= now
  {
    var index := Rebuild(log, window);
    IndexChronological(log, window, clock);
    DueIff(index, store, now, levels, w);
    var oldest := index[0].contributedAt;
    if w.level == MONTHLY {
      MonthlyMidnight(MonthStart(oldest), w.start);
    } else {
      FixedGrid(w.level, oldest, w.start);
    }
  }

  /** A created digest counts its indexed entries, and has one of them as its reason. */
  lemma CreatedGood(
    window: nat, log: seq<LogEntry>, clock: int, store: seq<Digest>, now: int, levels: set<int>, w: Window)
    requires Stamped(log, clock) && w in Due(Rebuild(log, window), store, now, levels)
    ensures var d := DigestOf(Rebuild(log, window), w);
      Covers(Rebuild(log, window), d) && Timely(log, window, |log|, d)
  {
    var index := Rebuild(log, window);
    var d := DigestOf(index, w);
    IndexChronological(log, window, clock);
    DueIff(index, store, now, levels, w);
    CreatedCovers(index, w);
    var e :| e in index && Inside(e, w.start, w.end);
    EntryPlace(log, window, e);
    var pos :| Oldest(window, |log|) <= pos < |log| && View(log[pos]) == e;
    SlotOf(w.level, Anchor(w.level, index[0].contributedAt), w.start, e.contributedAt);
    assert WitnessAt(log, window, |log|, d, pos);
  }

  lemma CreatedCovers(index: seq<CollectiveEntry>, w: Window)
    ensures Covers(index, DigestOf(index, w))
  {
    forall e | e in index && Inside(e, w.start, w.end) ensures e.hash in DigestOf(index, w).sources {
      SourcesExact(index, w.start, w.end, e.hash);
    }
  }

  lemma RollKeepsDigest(window: nat, st: Shards, now: int, at: int, levels: set<int>, i: nat)
    requires Sound(window, st) && Timed(st, RollAt(now, at, levels)) && now <= at
    requires i < |Step(window, st, RollAt(now, at, levels)).store|
    ensures i < |Step(window, st, RollAt(now, at, levels)).born|
    ensures GoodDigest(window, Step(window, st, RollAt(now, at, levels)), i)
  {
    var index := Rebuild(st.log, window);
    var next := Step(window, st, RollAt(now, at, levels));
    if i < |st.store| {
      assert GoodDigest(window, st, i) && next.born[i] == st.born[i];
    } else {
      var due := Due(index, st.store, now, levels);
      var w := due[i - |st.store|];
      assert w in due && next.store[i] == DigestOf(index, w);
      DueShaped(st.log, window, st.clock, st.store, now, levels, w);
      CreatedGood(window, st.log, st.clock, st.store, now, levels, w);
    }
  }

  lemma BornSorted(window: nat, st: Shards, length: nat)
    requires Sound(window, st) && |st.born| <= length
    ensures var r := Stretched(st.born, length, |st.log|);
      |r| == length && forall i, j :: 0 <= i < j < length ==> r[i] <= r[j]
  {
    var r := Stretched(st.born, length, |st.log|);
    forall i, j | 0 <= i < j < length ensures r[i] <= r[j] {
      if i < |st.born| {
        assert GoodDigest(window, st, i) && r[i] == st.born[i];
        if j < |st.born| { assert r[j] == st.born[j]; }
      }
    }
  }

  lemma RollSound(window: nat, st: Shards, now: int, at: int, levels: set<int>)
    requires Sound(window, st) && Timed(st, RollAt(now, at, levels)) && now <= at
    ensures Sound(window, Step(window, st, RollAt(now, at, levels)))
  {
    var next := Step(window, st, RollAt(now, at, levels));
    BornSorted(window, st, |next.store|);
    forall i | 0 <= i < |next.store| ensures GoodDigest(window, next, i) {
      RollKeepsDigest(window, st, now, at, levels, i);
    }
  }

  /** One roll keeps every window to one digest if and only if it forgets none. */
  lemma RollKeepsIff(window: nat, st: Shards, now: int, at: int, levels: set<int>)
    requires Kept(st) && OnePerWindow(st.store) && Timed(st, RollAt(now, at, levels))
    ensures Kept(Step(window, st, RollAt(now, at, levels)))
    ensures OnePerWindow(Step(window, st, RollAt(now, at, levels)).store) <==> !Forgets(window, st, now, levels)
  {
    var index := Rebuild(st.log, window);
    var next, due := Step(window, st, RollAt(now, at, levels)), Due(index, st.store, now, levels);
    forall i | 0 <= i < |next.store| ensures Shaped(next.store[i]) {
      if i >= |st.store| {
        var w := due[i - |st.store|];
        assert w in due && next.store[i] == DigestOf(index, w);
        DueShaped(st.log, window, st.clock, st.store, now, levels, w);
      }
    }
    if Forgets(window, st, now, levels) {
      RollRepeats(window, st, now, levels);
    } else {
      RollDistinct(window, st, now, levels);
    }
  }

  /** Late entries never fall into a digested window, and the index only forgets. */
  lemma PushSound(window: nat, st: Shards, entry: LogEntry)
    requires Sound(window, st) && Timed(st, Push(entry))
    ensures Sound(window, Step(window, st, Push(entry)))
  {
    var next := Step(window, st, Push(entry));
    forall i | 0 <= i < |next.store| ensures GoodDigest(window, next, i) {
      PushKeepsDigest(window, st, entry, i);
    }
  }

  lemma PushKeepsDigest(window: nat, st: Shards, entry: LogEntry, i: nat)
    requires Sound(window, st) && Timed(st, Push(entry)) && i < |st.store|
    ensures GoodDigest(window, Step(window, st, Push(entry)), i)
  {
    var next := Step(window, st, Push(entry));
    var d, b := st.store[i], st.born[i];
    assert GoodDigest(window, st, i);
    forall e | e in Rebuild(next.log, window) && Inside(e, d.start, d.end) ensures e.hash in d.sources {
      IndexForgets(st.log, entry, window, e);
    }
    var pos :| WitnessAt(st.log, window, b, d, pos);
    assert WitnessAt(next.log, window, b, d, pos);
  }

  lemma IndexForgets(log: seq<LogEntry>, entry: LogEntry, window: nat, e: CollectiveEntry)
    requires e in Rebuild(log + [entry], window)
    ensures e == View(entry) || e in Rebuild(log, window)
  {
    var longer := log + [entry];
    var a := Rebuild(longer, window);
    var i :| 0 <= i < |a| && a[i] == e;
    var place := |longer| - |a| + i;
    assert Newest(longer, window)[i] == longer[place];
    if place < |log| { RebuildHas(log, window, place); }
  }

  lemma RebuildHas(log: seq<LogEntry>, window: nat, place: nat)
    requires |log| - window <= place < |log|
    ensures View(log[place]) in Rebuild(log, window)
  {
    var r := Rebuild(log, window);
    assert Newest(log, window)[place - (|log| - |r|)] == log[place];
    assert r[place - (|log| - |r|)] == View(log[place]);
  }

  // ----- whole runs -----

  /** No roll of the run forgets a digest whose window it wants. */
  ghost predicate Remembers(window: nat, st: Shards, es: seq<Event>)
    decreases |es|
  {
    es == [] ||
    ((es[0].RollAt? ==> !Forgets(window, st, es[0].now, es[0].levels)) &&
        Remembers(window, Step(window, st, es[0]), es[1..]))
  }

  /** A run in two parts. */
  lemma {:induction false} RunConcat(window: nat, st: Shards, a: seq<Event>, b: seq<Event>)
    ensures Run(window, st, a + b) == Run(window, Run(window, st, a), b)
    ensures TimedRun(window, st, a + b) <==> TimedRun(window, st, a) && TimedRun(window, Run(window, st, a), b)
    ensures Remembers(window, st, a + b) <==> Remembers(window, st, a) && Remembers(window, Run(window, st, a), b)
    decreases |a|
  {
    if a == [] {
      assert a + b == b;
    } else {
      assert (a + b)[0] == a[0] && (a + b)[1..] == a[1..] + b;
      RunConcat(window, Step(window, st, a[0]), a[1..], b);
    }
  }

  lemma OneStep(window: nat, st: Shards, e: Event)
    ensures Run(window, st, [e]) == Step(window, st, e)
    ensures TimedRun(window, st, [e]) <==> Timed(st, e)
    ensures Remembers(window, st, [e]) <==> (e.RollAt? ==> !Forgets(window, st, e.now, e.levels))
  {
    var es := [e];
    assert es[0] == e && es[1..] == [];
  }

  lemma {:induction false} StoreGrows(window: nat, st: Shards, es: seq<Event>)
    ensures st.store <= Run(window, st, es).store
    decreases |es|
  {
    if es != [] { StoreGrows(window, Step(window, st, es[0]), es[1..]); }
  }

  lemma RepeatsStay(store: seq<Digest>, later: seq<Digest>)
    requires store <= later && OnePerWindow(later)
    ensures OnePerWindow(store)
  {
    forall i, j | 0 <= i < j < |store| ensures DigestId(store[i]) != DigestId(store[j]) {
      assert store[i] == later[i] && store[j] == later[j];
    }
  }

  /**
   Over every timed run of pushes and rolls, of any levels and for any reference times: no window ever gets two digests
   if and only if no roll forgets one.
   */
  lemma {:induction false} RunsKeepDigestsIff(window: nat, st: Shards, es: seq<Event>)
    requires Kept(st) && OnePerWindow(st.store) && TimedRun(window, st, es)
    ensures OnePerWindow(Run(window, st, es).store) <==> Remembers(window, st, es)
    decreases |es|
  {
    if es != [] {
      var next := Step(window, st, es[0]);
      if es[0].RollAt? { RollKeepsIff(window, st, es[0].now, es[0].at, es[0].levels); }
      if OnePerWindow(next.store) {
        RunsKeepDigestsIff(window, next, es[1..]);
      } else {
        StoreGrows(window, next, es[1..]);
        if OnePerWindow(Run(window, next, es[1..]).store) { RepeatsStay(next.store, Run(window, next, es[1..]).store); }
      }
    }
  }

  /** An empty collective is a lawful start. */
  lemma FreshRunsOneDigestIff(window: nat, clock: int, es: seq<Event>)
    requires TimedRun(window, Shards([], [], clock, []), es)
    ensures var start := Shards([], [], clock, []);
      OnePerWindow(Run(window, start, es).store) <==> Remembers(window, start, es)
  {
    RunsKeepDigestsIff(window, Shards([], [], clock, []), es);
  }

  /**
   When no roll runs ahead of the clock, every digest is of a closed window, was made for an entry, and counts all
   indexed entries of its window, over every run.
   */
  lemma {:induction false} PromptRunsSound(window: nat, st: Shards, es: seq<Event>)
    requires Sound(window, st) && TimedRun(window, st, es) && Prompt(es)
    ensures Sound(window, Run(window, st, es))
    decreases |es|
  {
    if es != [] {
      assert es[0] in es;
      match es[0] {
        case Push(entry) => PushSound(window, st, entry);
        case RollAt(now, at, levels) => RollSound(window, st, now, at, levels);
      }
      PromptRunsSound(window, Step(window, st, es[0]), es[1..]);
    }
  }

  // ----- after a roll -----

  /**
   A roll leaves a digest for the closed window of each indexed entry, at each chosen level, with that entry in it.
   */
  lemma RollCovers(window: nat, st: Shards, now: int, at: int, levels: set<int>, level: Level, e: CollectiveEntry)
    requires Sound(window, st) && Timed(st, RollAt(now, at, levels)) && Chosen(level, levels)
    requires e in Rebuild(st.log, window)
    requires var oldest := Rebuild(st.log, window)[0].contributedAt;
      Slot(level, Anchor(level, oldest), e.contributedAt) + Length(level) <= now
    ensures var oldest := Rebuild(st.log, window)[0].contributedAt;
      exists d :: d in Step(window, st, RollAt(now, at, levels)).store && e.hash in d.sources &&
        DigestId(d) == (level, Slot(level, Anchor(level, oldest), e.contributedAt))
  {
    var index := Rebuild(st.log, window);
    var anchor := Anchor(level, index[0].contributedAt);
    var s := Slot(level, anchor, e.contributedAt);
    var seen := Newest(st.store, READ_CAP);
    var w := Window(level, s, s + Length(level));
    IndexChronological(st.log, window, st.clock);
    SlotHolds(level, anchor, e.contributedAt);
    if (level, s) in Ids(seen) {
      var d :| d in seen && DigestId(d) == (level, s);
      StoredCovers(window, st, d, e);
      RollExtends(index, st.store, now, levels, d);
    } else {
      assert Inside(e, w.start, w.end);
      DueIff(index, st.store, now, levels, w);
      RollCreates(index, st.store, now, levels, w, e);
    }
  }

  /** Below the monthly level the digest's id does not depend on the index. */
  lemma RollDigests(
    window: nat, st: Shards, now: int, at: int, levels: set<int>, level: Level, e: CollectiveEntry) returns (i: nat)
    requires Sound(window, st) && Timed(st, RollAt(now, at, levels)) && Chosen(level, levels) && level != MONTHLY
    requires e in Rebuild(st.log, window) && Slot(level, 0, e.contributedAt) + Length(level) <= now
    ensures i < |Step(window, st, RollAt(now, at, levels)).store|
    ensures DigestId(Step(window, st, RollAt(now, at, levels)).store[i]) == (level, Slot(level, 0, e.contributedAt))
  {
    var store := Step(window, st, RollAt(now, at, levels)).store;
    FixedSlot(level, Rebuild(st.log, window)[0].contributedAt, e.contributedAt);
    RollCovers(window, st, now, at, levels, level, e);
    var d :| d in store && DigestId(d) == (level, Slot(level, 0, e.contributedAt));
    i :| 0 <= i < |store| && store[i] == d;
  }

  lemma StoredCovers(window: nat, st: Shards, d: Digest, e: CollectiveEntry)
    requires Sound(window, st) && d in st.store && e in Rebuild(st.log, window)
    requires d.start <= e.contributedAt < d.start + Length(d.level)
    ensures e.hash in d.sources
  {
    var i :| 0 <= i < |st.store| && st.store[i] == d;
    assert GoodDigest(window, st, i) && Inside(e, d.start, d.end);
  }

  lemma RollExtends(index: seq<CollectiveEntry>, store: seq<Digest>, now: int, levels: set<int>, d: Digest)
    requires d in store
    ensures d in Roll(index, store, now, levels)
  {
  }

  lemma RollCreates(
    index: seq<CollectiveEntry>, store: seq<Digest>, now: int, levels: set<int>, w: Window, e: CollectiveEntry)
    requires w in Due(index, store, now, levels) && e in index && w.start <= e.contributedAt <= w.end
    ensures exists d :: d in Roll(index, store, now, levels) && DigestId(d) == IdOf(w) && e.hash in d.sources
  {
    var due, r := Due(index, store, now, levels), Roll(index, store, now, levels);
    var i :| 0 <= i < |due| && due[i] == w;
    SourcesExact(index, w.start, w.end, e.hash);
    assert r[|store| + i] == DigestOf(index, w) && r[|store| + i] in r;
  }

  /**
   Below the monthly level a time lies inside at most one digest per level; the closed interval [start, end] of a second
   one can reach it only when the time is a window edge.
   */
  lemma OneDigestPerTime(st: Shards, i: nat, j: nat, t: int)
    requires Kept(st) && OnePerWindow(st.store) && i < |st.store| && j < |st.store| && i != j
    requires st.store[i].level == st.store[j].level != MONTHLY
    requires st.store[i].start <= t <= st.store[i].end && st.store[j].start <= t <= st.store[j].end
    ensures Aligned(st.store[i].level, 0, t)
    ensures (t == st.store[i].start && t == st.store[j].end) || (t == st.store[j].start && t == st.store[i].end)
  {
    assert DigestId(st.store[if i < j then i else j]) != DigestId(st.store[if i < j then j else i]);
    SharedEdge(st.store[i], st.store[j], t);
  }

  lemma SharedEdge(a: Digest, b: Digest, t: int)
    requires Shaped(a) && Shaped(b) && a.level == b.level != MONTHLY && a.start != b.start
    requires a.start <= t <= a.end && b.start <= t <= b.end
    ensures (t == a.start && t == b.end) || (t == b.start && t == a.end)
    ensures Aligned(a.level, 0, t)
  {
    if a.start < b.start {
      AlignedGap(a.level, 0, a.start, b.start);
    } else {
      AlignedGap(a.level, 0, b.start, a.start);
    }
  }

  lemma RolledIds(index: seq<CollectiveEntry>, store: seq<Digest>, now: int, levels: set<int>, w: Window)
    requires w in Due(index, store, now, levels)
    ensures var r := Roll(index, store, now, levels); exists i :: 0 <= i < |r| && DigestId(r[i]) == IdOf(w)
  {
    var due, r := Due(index, store, now, levels), Roll(index, store, now, levels);
    var i :| 0 <= i < |due| && due[i] == w;
    assert DigestId(r[|store| + i]) == IdOf(w);
  }

  /** A window due against a larger store was due against the smaller one, unless the larger has its digest. */
  lemma DueAgain(
    index: seq<CollectiveEntry>, store: seq<Digest>, next: seq<Digest>, now: int, levels: set<int>, w: Window)
    requires Chronological(index) && store <= next && w in Due(index, next, now, levels)
    requires forall i :: 0 <= i < |next| ==> DigestId(next[i]) != IdOf(w)
    ensures w in Due(index, store, now, levels)
  {
    DueIff(index, next, now, levels, w);
    DueIff(index, store, now, levels, w);
    forall d | d in Newest(store, READ_CAP) ensures DigestId(d) != IdOf(w) {
      FromNewest(store, READ_CAP, d);
      var i :| 0 <= i < |store| && store[i] == d;
      assert next[i] == d;
    }
  }

  /** Rolling again for the same reference time creates nothing, if and only if the grown shard forgets nothing. */
  lemma RollTwiceIff(window: nat, st: Shards, now: int, at: int, levels: set<int>)
    requires Kept(st) && OnePerWindow(st.store) && Timed(st, RollAt(now, at, levels)) &&
             !Forgets(window, st, now, levels)
    ensures var next := Step(window, st, RollAt(now, at, levels));
      Due(Rebuild(st.log, window), next.store, now, levels) == [] <==> !Forgets(window, next, now, levels)
  {
    var index := Rebuild(st.log, window);
    var next := Step(window, st, RollAt(now, at, levels));
    RollKeepsIff(window, st, now, at, levels);
    IndexChronological(st.log, window, st.clock);
    var again := Due(index, next.store, now, levels);
    if Forgets(window, next, now, levels) {
      RollRepeats(window, next, now, levels);
      assert again == [] ==> Roll(index, next.store, now, levels) == next.store;
    } else if again != [] {
      SecondRollIdle(window, st, next, now, levels, again[0]);
      assert false;
    }
  }

  lemma SecondRollIdle(window: nat, st: Shards, next: Shards, now: int, levels: set<int>, w: Window)
    requires Kept(next) && OnePerWindow(next.store) && next.log == st.log &&
             next.store == Roll(Rebuild(st.log, window), st.store, now, levels)
    requires !Forgets(window, next, now, levels) && Chronological(Rebuild(st.log, window))
    ensures w !in Due(Rebuild(st.log, window), next.store, now, levels)
  {
    var index := Rebuild(st.log, window);
    if w in Due(index, next.store, now, levels) {
      forall i | 0 <= i < |next.store| ensures DigestId(next.store[i]) != IdOf(w) {
        DueIsNew(window, next, now, levels, i, w);
      }
      DueAgain(index, st.store, next.store, now, levels, w);
      RolledIds(index, st.store, now, levels, w);
      assert false;
    }
  }
}
