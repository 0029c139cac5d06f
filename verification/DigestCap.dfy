/** When a roll's capped read of the digests shard cannot be felt (src/dsm/collective.py). */
module DigestCap {
  import opened Common
  import opened Calendar
  import opened Collective
  import opened Digests
  import opened DigestRuns

  // ----- counting -----

  lemma IdsSnoc(front: seq<Digest>, last: Digest)
    ensures Ids(front + [last]) == Ids(front) + {DigestId(last)}
  {
  }

  lemma LastIsNew(front: seq<Digest>, last: Digest)
    requires OnePerWindow(front + [last])
    ensures OnePerWindow(front) && DigestId(last) !in Ids(front)
  {
    var all := front + [last];
    RepeatsStay(front, all);
    forall i | 0 <= i < |front| ensures DigestId(front[i]) != DigestId(last) {
      assert all[i] == front[i] && all[|front|] == last;
    }
  }

  lemma {:induction false} DistinctIdsCount(store: seq<Digest>)
    requires OnePerWindow(store)
    ensures |Ids(store)| == |store|
  {
    if store != [] {
      var front, last := store[..|store| - 1], store[|store| - 1];
      assert store == front + [last];
      LastIsNew(front, last);
      IdsSnoc(front, last);
      DistinctIdsCount(front);
    }
  }

  /** The monthly digests among `ds`. */
  function Monthly(ds: seq<Digest>): set<(Level, int)> {
    set d | d in ds && d.level == MONTHLY :: DigestId(d)
  }

  /**
   Digests with distinct ids, the fixed-grid ones in `fixed` and the monthly ones in `monthly`, are no more than these.
   */
  lemma CountIds(ds: seq<Digest>, fixed: set<(Level, int)>, monthly: set<(Level, int)>)
    requires OnePerWindow(ds)
    requires forall d :: d in ds ==> DigestId(d) in if d.level == MONTHLY then monthly else fixed
    ensures |ds| <= |fixed| + |Monthly(ds)| && |Monthly(ds)| <= |monthly|
  {
    DistinctIdsCount(ds);
    SubsetFewer(Ids(ds), fixed + Monthly(ds));
    SubsetFewer(Monthly(ds), monthly);
  }

  // ----- digests stored after one whose window is still indexed -----

  /** The entry at place `p` is indexed and inside digest `i`'s window. */
  ghost predicate StillIndexed(window: nat, st: Shards, i: nat, p: nat) {
    && i < |st.store| && p < |st.log| && |st.log| - window <= p
    && st.store[i].start <= st.log[p].timestamp < st.store[i].end
  }

  function TimeAt(log: seq<LogEntry>, pos: int): int {
    if 0 <= pos < |log| then log[pos].timestamp else 0
  }

  /** The id of the window around the entry at `pos`, when the entry at `oldest` is the oldest indexed one. */
  function WindowId(log: seq<LogEntry>, level: Level, oldest: int, pos: int): (Level, int) {
    (level, Slot(level, Anchor(level, TimeAt(log, oldest)), TimeAt(log, pos)))
  }

  /** The ids of the fixed-grid windows around the entries at `n` places from `lo` on. */
  ghost function FixedIds(log: seq<LogEntry>, lo: int, n: nat): set<(Level, int)> {
    if n == 0 then {}
    else
      var pos := lo + n - 1;
      FixedIds(log, lo, n - 1) + {WindowId(log, 1, 0, pos), WindowId(log, 2, 0, pos), WindowId(log, 3, 0, pos)}
  }

  lemma ThreeMore<T>(a: set<T>, x: T, y: T, z: T)
    ensures |a + {x, y, z}| <= |a| + 3
  {
    SubsetFewer(a + {x, y, z}, a + {x} + {y} + {z});
  }

  lemma {:induction false} FixedIdsFew(log: seq<LogEntry>, lo: int, n: nat)
    ensures |FixedIds(log, lo, n)| <= 3 * n
  {
    if n > 0 {
      var pos := lo + n - 1;
      FixedIdsFew(log, lo, n - 1);
      ThreeMore(FixedIds(log, lo, n - 1), WindowId(log, 1, 0, pos), WindowId(log, 2, 0, pos), WindowId(log, 3, 0, pos));
    }
  }

  lemma {:induction false} FixedIdsHave(log: seq<LogEntry>, lo: int, n: nat, level: Level, pos: int)
    requires level != MONTHLY && lo <= pos < lo + n
    ensures WindowId(log, level, 0, pos) in FixedIds(log, lo, n)
  {
    if pos < lo + n - 1 { FixedIdsHave(log, lo, n - 1, level, pos); }
  }

  /** The ids of `n` monthly windows, one a day, the last one starting at `last`. */
  ghost function DailyStarts(last: int, n: nat): set<(Level, int)>
    decreases n, last
  {
    if n == 0 then {} else DailyStarts(last, n - 1) + {(MONTHLY, last - (n - 1) * DAY)}
  }

  lemma {:induction false} DailyStartsFew(last: int, n: nat)
    ensures |DailyStarts(last, n)| <= n
  {
    if n > 0 { DailyStartsFew(last, n - 1); }
  }

  lemma {:induction false} DailyStartsHave(last: int, n: nat, k: nat)
    requires k < n
    ensures (MONTHLY, last - k * DAY) in DailyStarts(last, n)
  {
    if k < n - 1 { DailyStartsHave(last, n - 1, k); }
  }

  /** A 30-day window that starts at a midnight and holds `t` is one of thirty. */
  lemma OneOfThirty(t: int, start: int)
    requires start % DAY == 0 && start <= t < start + MONTH
    ensures (MONTHLY, start) in DailyStarts(Slot(2, 0, t), 30)
  {
    var last := Slot(2, 0, t);
    SlotHolds(2, 0, t);
    assert last % DAY == 0 && last <= t < last + DAY;
    var k := (last - start) / DAY;
    MultiplesSubtract(last, start, DAY);
    assert last - start == DAY * k;
    assert 0 <= k < 30;
    DailyStartsHave(last, 30, k);
  }

  ghost function UnionOf<T>(sets: seq<set<T>>): set<T> {
    if sets == [] then {} else UnionOf(sets[..|sets| - 1]) + sets[|sets| - 1]
  }

  lemma {:induction false} UnionFew<T>(sets: seq<set<T>>, each: nat)
    requires forall i :: 0 <= i < |sets| ==> |sets[i]| <= each
    ensures |UnionOf(sets)| <= each * |sets|
  {
    if sets != [] {
      UnionFew(sets[..|sets| - 1], each);
      assert each * |sets| == each * (|sets| - 1) + each;
    }
  }

  lemma {:induction false} UnionHas<T>(sets: seq<set<T>>, i: nat, x: T)
    requires i < |sets| && x in sets[i]
    ensures x in UnionOf(sets)
  {
    if i < |sets| - 1 { UnionHas(sets[..|sets| - 1], i, x); }
  }

  /** For each of these midnights, the ids of the thirty monthly windows that start at it or up to 29 days before. */
  ghost function MonthlyRows(midnights: seq<int>): (r: seq<set<(Level, int)>>)
    ensures |r| == |midnights|
    ensures forall i {:trigger r[i]} :: 0 <= i < |r| ==> r[i] == DailyStarts(midnights[i], 30)
  {
    seq(|midnights|, i requires 0 <= i < |midnights| => DailyStarts(midnights[i], 30))
  }

  lemma MonthlyRowsFew(midnights: seq<int>)
    ensures |UnionOf(MonthlyRows(midnights))| <= 30 * |midnights|
  {
    var rows := MonthlyRows(midnights);
    forall i | 0 <= i < |rows| ensures |rows[i]| <= 30 {
      DailyStartsFew(midnights[i], 30);
    }
    UnionFew(rows, 30);
  }

  /** The midnights before the entries at `n` places from `lo` on. */
  function Midnights(log: seq<LogEntry>, lo: int, n: nat): (r: seq<int>)
    ensures |r| == n
    ensures forall i {:trigger r[i]} :: 0 <= i < n ==> r[i] == Slot(2, 0, TimeAt(log, lo + i))
  {
    seq(n, i requires 0 <= i < n => Slot(2, 0, TimeAt(log, lo + i)))
  }

  /** The ids of monthly windows from a midnight on around the entries at `n` places from `lo` on. */
  ghost function MonthlyIds(log: seq<LogEntry>, lo: int, n: nat): set<(Level, int)> {
    UnionOf(MonthlyRows(Midnights(log, lo, n)))
  }

  lemma MonthlyIdsFew(log: seq<LogEntry>, lo: int, n: nat)
    ensures |MonthlyIds(log, lo, n)| <= 30 * n
  {
    MonthlyRowsFew(Midnights(log, lo, n));
  }

  lemma MonthlyIdsHave(log: seq<LogEntry>, lo: int, n: nat, pos: int, id: (Level, int))
    requires lo <= pos < lo + n && id in DailyStarts(Slot(2, 0, TimeAt(log, pos)), 30)
    ensures id in MonthlyIds(log, lo, n)
  {
    var midnights := Midnights(log, lo, n);
    assert midnights[pos - lo] == Slot(2, 0, TimeAt(log, pos));
    UnionHas(MonthlyRows(midnights), pos - lo, id);
  }

  /** A digest stored after `i` was born when place `p` was indexed, for an entry of that index. */
  lemma LaterBirth(window: nat, st: Shards, i: nat, j: nat, p: nat) returns (oldest: nat, pos: nat)
    requires Sound(window, st) && StillIndexed(window, st, i, p) && i < j < |st.store|
    ensures oldest <= pos < |st.log| && p + 1 - window <= pos < p + window
    ensures DigestId(st.store[j]) == WindowId(st.log, st.store[j].level, oldest, pos)
  {
    assert GoodDigest(window, st, i) && GoodDigest(window, st, j);
    var b := st.born[j];
    var at :| WitnessAt(st.log, window, b, st.store[j], at);
    assert p < st.born[i] <= b <= |st.log|;
    oldest, pos := Oldest(window, b), at;
  }

  lemma NearMonthly(log: seq<LogEntry>, oldest: nat, pos: nat)
    ensures WindowId(log, MONTHLY, oldest, pos) in DailyStarts(Slot(2, 0, TimeAt(log, pos)), 30)
  {
    var anchor, t := MonthStart(TimeAt(log, oldest)), TimeAt(log, pos);
    SlotHolds(MONTHLY, anchor, t);
    MonthlyMidnight(anchor, Slot(MONTHLY, anchor, t));
    OneOfThirty(t, Slot(MONTHLY, anchor, t));
  }

  lemma NearFixed(log: seq<LogEntry>, level: Level, oldest: nat, pos: nat)
    requires level != MONTHLY
    ensures WindowId(log, level, oldest, pos) == WindowId(log, level, 0, pos)
  {
    FixedSlot(level, TimeAt(log, oldest), TimeAt(log, pos));
    FixedSlot(level, TimeAt(log, 0), TimeAt(log, pos));
  }

  /** The digest's window is around one of `n` places from `lo` on. */
  ghost predicate IsNear(log: seq<LogEntry>, lo: int, n: nat, d: Digest) {
    DigestId(d) in if d.level == MONTHLY then MonthlyIds(log, lo, n) else FixedIds(log, lo, n)
  }

  lemma NearIds(log: seq<LogEntry>, lo: int, n: nat, oldest: nat, pos: nat, d: Digest)
    requires DigestId(d) == WindowId(log, d.level, oldest, pos) && lo <= pos < lo + n
    ensures IsNear(log, lo, n, d)
  {
    if d.level == MONTHLY {
      NearMonthly(log, oldest, pos);
      MonthlyIdsHave(log, lo, n, pos, DigestId(d));
    } else {
      NearFixed(log, d.level, oldest, pos);
      FixedIdsHave(log, lo, n, d.level, pos);
    }
  }

  lemma LaterIsNear(window: nat, st: Shards, i: nat, j: nat, p: nat)
    requires Sound(window, st) && StillIndexed(window, st, i, p) && i < j < |st.store|
    ensures IsNear(st.log, p + 1 - window, 2 * window - 1, st.store[j])
  {
    var oldest, pos := LaterBirth(window, st, i, j, p);
    NearIds(st.log, p + 1 - window, 2 * window - 1, oldest, pos, st.store[j]);
  }

  /**
   Digests stored from place `from` on, after one whose window is still indexed, are few: apart from monthly ones at
   most three for each of two index widths less one, and at most thirty times that width of monthly ones.
   */
  lemma FewAfter(window: nat, st: Shards, i: nat, from: nat, p: nat)
    requires Sound(window, st) && OnePerWindow(st.store) && StillIndexed(window, st, i, p) && i < from <= |st.store|
    ensures |st.store| - from <= 3 * (2 * window - 1) + |Monthly(st.store[from..])|
    ensures |Monthly(st.store[from..])| <= 30 * (2 * window - 1)
  {
    var later, lo, n := st.store[from..], p + 1 - window, 2 * window - 1;
    var fixed, monthly := FixedIds(st.log, lo, n), MonthlyIds(st.log, lo, n);
    LaterDistinct(st.store, from);
    forall d | d in later ensures DigestId(d) in if d.level == MONTHLY then monthly else fixed {
      var j :| 0 <= j < |later| && later[j] == d;
      LaterIsNear(window, st, i, from + j, p);
    }
    CountIds(later, fixed, monthly);
    FixedIdsFew(st.log, lo, n);
    MonthlyIdsFew(st.log, lo, n);
  }

  lemma LaterDistinct(store: seq<Digest>, from: nat)
    requires OnePerWindow(store) && from <= |store|
    ensures OnePerWindow(store[from..])
  {
    var later := store[from..];
    forall i, j | 0 <= i < j < |later| ensures DigestId(later[i]) != DigestId(later[j]) {
      assert later[i] == store[from + i] && later[j] == store[from + j];
    }
  }

  // ----- when one read is enough -----

  /** An index this narrow cannot fill the read with monthly digests. */
  const NARROW: nat := 152

  /** An index this narrow cannot fill the read with fixed-grid digests. */
  const MODERATE: nat := 1667

  /** The shard is within the cap, or few of the digests that are read are monthly, or the index is narrow. */
  predicate Readable(window: nat, store: seq<Digest>) {
    || |store| <= READ_CAP
    || 3 * (2 * window - 1) + |Monthly(Newest(store, READ_CAP))| < READ_CAP
    || window <= NARROW
  }

  lemma WantedIsIndexed(window: nat, st: Shards, now: int, levels: set<int>, i: nat) returns (p: nat)
    requires i < |st.store| && WantedAgain(Rebuild(st.log, window), now, levels, st.store[i])
    ensures StillIndexed(window, st, i, p)
  {
    var e :| e in Rebuild(st.log, window) && Inside(e, st.store[i].start, st.store[i].end);
    EntryPlace(st.log, window, e);
    p :| Oldest(window, |st.log|) <= p < |st.log| && View(st.log[p]) == e;
  }

  lemma ForgetsNeedsMonthly(window: nat, st: Shards, now: int, levels: set<int>)
    requires Sound(window, st) && OnePerWindow(st.store) && Forgets(window, st, now, levels)
    ensures |st.store| > READ_CAP && READ_CAP <= 3 * (2 * window - 1) + |Monthly(Newest(st.store, READ_CAP))|
    ensures READ_CAP <= 33 * (2 * window - 1)
  {
    var i :| 0 <= i < |st.store| - READ_CAP && WantedAgain(Rebuild(st.log, window), now, levels, st.store[i]);
    var p := WantedIsIndexed(window, st, now, levels, i);
    var from := |st.store| - READ_CAP;
    assert Newest(st.store, READ_CAP) == st.store[from..];
    FewAfter(window, st, i, from, p);
  }

  /** With a readable shard, a roll forgets nothing. */
  lemma ReadIsEnough(window: nat, st: Shards, now: int, levels: set<int>)
    requires Sound(window, st) && OnePerWindow(st.store) && Readable(window, st.store)
    ensures !Forgets(window, st, now, levels)
  {
    if Forgets(window, st, now, levels) {
      ForgetsNeedsMonthly(window, st, now, levels);
      assert false;
    }
  }

  /** No stored digest is monthly. */
  predicate NoMonthly(store: seq<Digest>) {
    forall i :: 0 <= i < |store| ==> store[i].level != MONTHLY
  }

  lemma NoMonthlyReadable(window: nat, store: seq<Digest>)
    requires window <= MODERATE && NoMonthly(store)
    ensures Readable(window, store)
  {
    var seen := Newest(store, READ_CAP);
    forall d | d in seen ensures d.level != MONTHLY {
      var i :| 0 <= i < |seen| && seen[i] == d;
      assert store[|store| - |seen| + i] == d;
    }
    assert Monthly(seen) == {};
  }

  /** Rolls that name their levels and leave the monthly one out. */
  predicate WithoutMonthly(es: seq<Event>) {
    forall e :: e in es && e.RollAt? ==> !Chosen(MONTHLY, e.levels)
  }

  lemma RollWithoutMonthly(window: nat, st: Shards, now: int, levels: set<int>)
    requires Sound(window, st) && NoMonthly(st.store) && !Chosen(MONTHLY, levels)
    ensures NoMonthly(Roll(Rebuild(st.log, window), st.store, now, levels))
  {
    var index := Rebuild(st.log, window);
    var due, r := Due(index, st.store, now, levels), Roll(index, st.store, now, levels);
    IndexChronological(st.log, window, st.clock);
    forall i | 0 <= i < |r| ensures r[i].level != MONTHLY {
      if i >= |st.store| {
        assert due[i - |st.store|] in due && r[i].level == due[i - |st.store|].level;
        DueIff(index, st.store, now, levels, due[i - |st.store|]);
      }
    }
  }

  /**
   Runs that never feel the cap, however many digests they store: those over an index of at most 152 entries, and those
   that leave level 4 out over an index of at most 1667, as long as no roll runs ahead of the clock.
   */
  lemma {:induction false} NarrowRunsRemember(window: nat, st: Shards, es: seq<Event>)
    requires Sound(window, st) && OnePerWindow(st.store) && TimedRun(window, st, es) && Prompt(es)
    requires window <= NARROW || (window <= MODERATE && NoMonthly(st.store) && WithoutMonthly(es))
    ensures Remembers(window, st, es)
    decreases |es|
  {
    if es != [] {
      assert es[0] in es;
      match es[0] {
        case Push(entry) => PushSound(window, st, entry);
        case RollAt(now, at, levels) =>
          if window > NARROW {
            NoMonthlyReadable(window, st.store);
            RollWithoutMonthly(window, st, now, levels);
          }
          ReadIsEnough(window, st, now, levels);
          SoundIsKept(window, st);
          RollKeepsIff(window, st, now, at, levels);
          RollSound(window, st, now, at, levels);
      }
      NarrowRunsRemember(window, Step(window, st, es[0]), es[1..]);
    }
  }
}
